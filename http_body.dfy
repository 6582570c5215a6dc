// basic-http/src/body.rs: a message body, a text buffer tagged with the
// kind of content it holds.
module BasicHttpBody {

  datatype BodyDataType = PlainText | ApplicationJson | UrlEncodedForm | MultipartForm

  class HttpBody {
    var kind: BodyDataType
    var data: string

    /** `HttpBody::default`: empty plain text. */
    constructor Default()
      ensures kind == PlainText && data == ""
    {
      kind := PlainText;
      data := "";
    }

    /** `From<&str>`: plain text holding the given string. */
    constructor FromStr(text: string)
      ensures kind == PlainText && data == text
    {
      kind := PlainText;
      data := text;
    }

    /** `clone`: a new body with the same kind and text. */
    method Clone() returns (c: HttpBody)
      ensures fresh(c) && c.kind == kind && c.data == data
    {
      c := new HttpBody.FromStr(data);
      c.kind := kind;
    }

    /** `append_str`: the text grows by `s` at the end; the kind stays. */
    method AppendStr(s: string)
      modifies this
      ensures data == old(data) + s && kind == old(kind)
    {
      data := data + s;
    }

    /** `set_data`: the text is replaced; the kind stays. */
    method SetData(s: string)
      modifies this
      ensures data == s && kind == old(kind)
    {
      data := s;
    }

    /** `clear`: the text is emptied; the kind stays. */
    method Clear()
      modifies this
      ensures data == "" && kind == old(kind)
    {
      data := "";
    }

    /** `data` and `to_string`: the stored text, unchanged. */
    function Data(): (s: string)
      reads this
      ensures s == data
    {
      data
    }
  }
}
