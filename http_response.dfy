// basic-http/src/response.rs: the response a handler fills in, its header
// rules, and the text it is sent as.
module BasicHttpResponse {
  import opened Wrappers
  import opened HttpText
  import opened BasicHttpStatus
  import opened BasicHttpHeader
  import opened BasicHttpBody
  import StrUtil

  /** The content type added when the handler set none. */
  const DefaultContentType: string := "content-type: text/plain; charset=utf-8"

  /** `str::to_ascii_lowercase`. */
  function ToAsciiLowercase(s: string): (t: string)
    ensures |t| == |s|
    ensures forall i :: 0 <= i < |s| ==>
      t[i] == if 'A' <= s[i] <= 'Z' then (s[i] as int + 32) as char else s[i]
  {
    seq(|s|, i requires 0 <= i < |s| => if 'A' <= s[i] <= 'Z' then (s[i] as int + 32) as char else s[i])
  }

  /** The header names the response writes itself, compared without regard to letter case. */
  predicate Reserved(key: string)
    ensures key == "content-length" || key == "date" ==> Reserved(key)
    ensures Reserved(key) ==> |key| == 14 || |key| == 4
  {
    ToAsciiLowercase(key) == "content-length" || ToAsciiLowercase(key) == "date"
  }

  /** The first line: protocol version, numeric code and reason phrase. */
  function StatusText(c: HttpStatusCode): (r: string)
    ensures |r| > 9 && r[..9] == "HTTP/1.1 "
    ensures |r| > |CodeAsStrName(c)| && r[|r| - |CodeAsStrName(c)|..] == CodeAsStrName(c)
  {
    "HTTP/1.1 " + StrUtil.DecimalString(Code(c)) + " " + CodeAsStrName(c)
  }

  /** The date the response carries: the RFC 2822 form of the current time, "+0000" written as "GMT". */
  function DateText(rfc2822: string): string
  {
    Replace(rfc2822, "+0000", "GMT")
  }

  /** The lines `to_string` writes before the handler's own header fields. */
  function FixedLines(c: HttpStatusCode, rfc2822: string, bodyLength: nat): seq<string>
  {
    [StatusText(c), "date: " + DateText(rfc2822), "content-length: " + StrUtil.DecimalString(bodyLength)]
  }

  /** Status line, date, content length and the rendered header, in the order `to_string` pushes them. */
  function HeadBlock(c: HttpStatusCode, rfc2822: string, order: seq<string>, m: map<string, string>, body: string): string
    requires forall i :: 0 <= i < |order| ==> order[i] in m
  {
    var lines := FixedLines(c, rfc2822, |body|);
    lines[0] + CRLF + lines[1] + CRLF + lines[2] + CRLF + Render(order, m)
  }

  /**
   * `to_string` as written, for the time `rfc2822` and a given iteration
   * order of the header map. Without a "content-type" field every blank line
   * in the head is collapsed and the default content type appended; with one,
   * the head is left ending in its blank line and another CRLF follows.
   */
  function ResponseText(c: HttpStatusCode, rfc2822: string, order: seq<string>, m: map<string, string>, body: string): (r: string)
    requires forall i :: 0 <= i < |order| ==> order[i] in m
    ensures |r| >= |body| + 2 && r[|r| - |body| - 2..] == CRLF + body
  {
    var head := HeadBlock(c, rfc2822, order, m, body);
    var head' := if "content-type" !in m then Replace(head, BlankLine, CRLF) + DefaultContentType + CRLF else head;
    head' + CRLF + body
  }

  /** The rendering evidently intended: the head ends in exactly one blank line whether or not the handler set a content type. */
  function ResponseTextAsIntended(c: HttpStatusCode, rfc2822: string, order: seq<string>, m: map<string, string>, body: string): (r: string)
    requires forall i :: 0 <= i < |order| ==> order[i] in m
    ensures "content-type" !in m ==> r == ResponseText(c, rfc2822, order, m, body)
    ensures |r| >= |body| + 2 && r[|r| - |body| - 2..] == CRLF + body
  {
    var head := Replace(HeadBlock(c, rfc2822, order, m, body), BlankLine, CRLF);
    var head' := if "content-type" !in m then head + DefaultContentType + CRLF else head;
    head' + CRLF + body
  }

  class HttpResponse {
    var code: HttpStatusCode
    var header: HttpHeader
    var body: HttpBody

    /** `from_stream` without the stream: code 200, no header fields, empty plain-text body. */
    constructor FromStream()
      ensures code == HttpStatusCode.Ok && header.entries == map[]
      ensures body.kind == PlainText && body.data == ""
      ensures fresh(header) && fresh(body)
    {
      code := HttpStatusCode.Ok;
      header := new HttpHeader.Default();
      body := new HttpBody.Default();
    }

    /** `set_code`. */
    method SetCode(c: HttpStatusCode)
      modifies this
      ensures code == c && header == old(header) && body == old(body)
    {
      code := c;
    }

    /** `get_header`: whether a stored name equals `key` exactly, letter case included. */
    method GetHeader(key: string) returns (found: bool)
      ensures found <==> key in header.entries
    {
      var hs;
      ghost var order;
      hs, order := header.Headers();
      var i := 0;
      while i < |hs|
        invariant 0 <= i <= |hs|
        invariant forall j :: 0 <= j < i ==> hs[j].0 != key
      {
        if hs[i].0 == key {
          return true;
        }
        i := i + 1;
      }
      assert forall j :: 0 <= j < |order| ==> order[j] != key;
      return false;
    }

    /**
     * `add_header`: "content-length" and "date", in any letter case, are
     * ignored; any other name is added unless already present.
     */
    method AddHeader(key: string, value: string)
      modifies header
      ensures Reserved(key) ==> header.entries == old(header.entries)
      ensures !Reserved(key) && key in old(header.entries) ==> header.entries == old(header.entries)
      ensures !Reserved(key) && key !in old(header.entries) ==> header.entries == old(header.entries)[key := value]
    {
      var lower := ToAsciiLowercase(key);
      if lower == "content-length" {
      } else if lower == "date" {
      } else {
        var _ := header.AddHeader(key, value);
      }
    }

    /** `remove_header`: refuses the reserved names, otherwise removes as the header does. */
    method RemoveHeader(key: string) returns (removed: bool)
      modifies header
      ensures Reserved(key) ==> !removed && header.entries == old(header.entries)
      ensures !Reserved(key) ==> (removed <==> key in old(header.entries))
      ensures !Reserved(key) ==> header.entries == old(header.entries) - {key}
    {
      var lower := ToAsciiLowercase(key);
      if lower == "content-length" {
        removed := false;
      } else if lower == "date" {
        removed := false;
      } else {
        removed := header.RemoveHeader(key);
      }
    }

    /** `write_str`: appends to the body. */
    method WriteStr(data: string)
      modifies body
      ensures body.data == old(body.data) + data && body.kind == old(body.kind)
    {
      body.AppendStr(data);
    }

    /** `set_data`: replaces the body text. */
    method SetData(data: string)
      modifies body
      ensures body.data == data && body.kind == old(body.kind)
    {
      body.SetData(data);
    }

    /** `clear_buffer`: empties the body. */
    method ClearBuffer()
      modifies body
      ensures body.data == "" && body.kind == old(body.kind)
    {
      body.Clear();
    }

    /** `to_string`, with the current time as a parameter. */
    method ToString(rfc2822: string) returns (s: string, ghost order: seq<string>)
      ensures EnumeratesKeys(order, header.entries)
      ensures s == ResponseText(code, rfc2822, order, header.entries, body.data)
    {
      var result := "";
      var statusStr := "HTTP/1.1 " + StrUtil.DecimalString(Code(code)) + " " + CodeAsStrName(code) + "\r\n";
      var nowStr := Replace(rfc2822, "+0000", "GMT");
      var date := "date: " + nowStr + "\r\n";
      var contentLength := "content-length: " + StrUtil.DecimalString(|body.Data()|) + "\r\n";
      result := result + statusStr;
      result := result + date;
      result := result + contentLength;
      var headerStr;
      headerStr, order := header.ToString();
      result := result + headerStr;
      ghost var fixed := FixedLines(code, rfc2822, |body.data|);
      assert statusStr == fixed[0] + CRLF && date == fixed[1] + CRLF && contentLength == fixed[2] + CRLF;
      PushedLines(fixed[0], fixed[1], fixed[2], headerStr);
      ghost var head := HeadBlock(code, rfc2822, order, header.entries, body.data);
      assert result == head;
      var hasContentType := GetHeader("content-type");
      if !hasContentType {
        result := Replace(result, "\r\n\r\n", "\r\n");
        result := result + "content-type: text/plain; charset=utf-8\r\n";
        assert result == Replace(head, BlankLine, CRLF) + DefaultContentType + CRLF;
      }
      ghost var head' := result;
      result := result + "\r\n";
      result := result + body.Data();
      s := result;
      assert s == head' + CRLF + body.data;
    }
  }

  lemma PushedLines(a: string, b: string, c: string, rest: string)
    ensures "" + (a + CRLF) + (b + CRLF) + (c + CRLF) + rest == a + CRLF + b + CRLF + c + CRLF + rest
  {
  }

  // -------------------------------------------------------------------
  // Properties
  // -------------------------------------------------------------------

  /** The header rules ignore the letter case of the reserved names. */
  lemma ReservedIgnoresCase()
    ensures Reserved("Content-Length") && Reserved("CONTENT-LENGTH") && Reserved("Date")
    ensures !Reserved("content-type")
  {
    assert ToAsciiLowercase("Content-Length") == "content-length";
    assert ToAsciiLowercase("CONTENT-LENGTH") == "content-length";
    assert ToAsciiLowercase("Date") == "date";
    assert ToAsciiLowercase("content-type")[0] == 'c';
    assert ToAsciiLowercase("content-type")[1] == 'o';
  }

  /** Neither the header fields, the time nor the body hold a carriage return. */
  predicate Clean(rfc2822: string, m: map<string, string>)
  {
    && Free(rfc2822, '\r')
    && (forall k :: k in m ==> Free(k, '\r') && Free(m[k], '\r'))
  }

  lemma FreeAppend(a: string, b: string, c: char)
    requires Free(a, c) && Free(b, c)
    ensures Free(a + b, c)
  {
  }

  /** The text of a decimal number holds no carriage return. */
  lemma DecimalFree(n: nat)
    ensures Free(StrUtil.DecimalString(n), '\r')
  {
    var d := StrUtil.DecimalString(n);
    assert forall i :: 0 <= i < |d| ==> StrUtil.IsDigit(d[i]);
  }

  lemma NameFree(c: HttpStatusCode)
    ensures Free(CodeAsStrName(c), '\r')
  {
    match c
    case Ok =>
    case Created =>
    case Accepted =>
    case NoContent =>
    case BadRequest =>
    case Unauthorized =>
    case PaymentRequired =>
    case Forbidden =>
    case NotFound =>
    case ServerError =>
    case NotImplemented =>
    case BadGateway =>
  }

  lemma StatusTextFree(c: HttpStatusCode)
    ensures StatusText(c) != [] && Free(StatusText(c), '\r')
  {
    NameFree(c);
    DecimalFree(Code(c));
    FreeAppend("HTTP/1.1 ", StrUtil.DecimalString(Code(c)), '\r');
    FreeAppend("HTTP/1.1 " + StrUtil.DecimalString(Code(c)), " ", '\r');
    FreeAppend("HTTP/1.1 " + StrUtil.DecimalString(Code(c)) + " ", CodeAsStrName(c), '\r');
  }

  lemma DateLineFree(rfc2822: string)
    requires Free(rfc2822, '\r')
    ensures Free("date: " + DateText(rfc2822), '\r')
  {
    FreeReplace(rfc2822, "+0000", "GMT", '\r');
    FreeAppend("date: ", DateText(rfc2822), '\r');
  }

  lemma LengthLineFree(n: nat)
    ensures Free("content-length: " + StrUtil.DecimalString(n), '\r')
  {
    DecimalFree(n);
    FreeAppend("content-length: ", StrUtil.DecimalString(n), '\r');
  }

  lemma FieldTextFree(k: string, v: string)
    requires Free(k, '\r') && Free(v, '\r')
    ensures Free(FieldText(k, v), '\r')
  {
    FreeAppend(k, ": ", '\r');
    FreeAppend(k + ": ", v, '\r');
  }

  /** The head lines of a clean response are non-empty and free of carriage returns. */
  lemma HeadLinesClean(c: HttpStatusCode, rfc2822: string, order: seq<string>, m: map<string, string>, body: string)
    requires EnumeratesKeys(order, m) && Clean(rfc2822, m)
    ensures forall i :: 0 <= i < 3 + |order| ==>
      (FixedLines(c, rfc2822, |body|) + FieldTexts(order, m))[i] != [] &&
      Free((FixedLines(c, rfc2822, |body|) + FieldTexts(order, m))[i], '\r')
  {
    var fixed := FixedLines(c, rfc2822, |body|);
    var fts := FieldTexts(order, m);
    StatusTextFree(c);
    DateLineFree(rfc2822);
    LengthLineFree(|body|);
    forall i | 0 <= i < |fts|
      ensures fts[i] != [] && Free(fts[i], '\r')
    {
      FieldTextFree(order[i], m[order[i]]);
    }
    var lines := fixed + fts;
    forall i | 0 <= i < |lines|
      ensures lines[i] != [] && Free(lines[i], '\r')
    {
      if i < 3 {
        assert lines[i] == fixed[i];
      } else {
        assert lines[i] == fts[i - 3];
      }
    }
  }

  /** Three lines, CRLF between them, then a rendered header, are the lines and field texts joined by CRLF with a blank line. */
  lemma ThreeLinesAndRender(a: string, b: string, c: string, order: seq<string>, m: map<string, string>)
    requires forall i :: 0 <= i < |order| ==> order[i] in m
    ensures a + CRLF + b + CRLF + c + CRLF + Render(order, m)
         == Join([a, b, c] + FieldTexts(order, m), CRLF) + BlankLine
  {
    var first := Join([a, b, c], CRLF);
    assert first == a + CRLF + (b + CRLF + c) by {
      assert [a, b, c][1..] == [b, c];
      assert [b, c][1..] == [c];
      assert Join([c], CRLF) == c;
      assert Join([b, c], CRLF) == b + CRLF + c;
    }
    assert a + CRLF + b + CRLF + c + CRLF + Render(order, m) == first + CRLF + Render(order, m);
    RenderAsJoin(first, order, m);
    JoinAppend([a, b, c], FieldTexts(order, m), CRLF);
  }

  /** The head block is its lines joined by CRLF, then a blank line. */
  lemma HeadBlockAsJoin(c: HttpStatusCode, rfc2822: string, order: seq<string>, m: map<string, string>, body: string)
    requires forall i :: 0 <= i < |order| ==> order[i] in m
    ensures HeadBlock(c, rfc2822, order, m, body)
         == Join(FixedLines(c, rfc2822, |body|) + FieldTexts(order, m), CRLF) + BlankLine
  {
    var fixed := FixedLines(c, rfc2822, |body|);
    ThreeLinesAndRender(fixed[0], fixed[1], fixed[2], order, m);
    assert fixed == [fixed[0], fixed[1], fixed[2]];
  }

  /** Collapsing the blank line that ends a clean head leaves the head lines ended by one CRLF. */
  lemma CollapsedHead(lines: seq<string>)
    requires |lines| >= 1
    requires forall i :: 0 <= i < |lines| ==> lines[i] != [] && Free(lines[i], '\r')
    ensures Replace(Join(lines, CRLF) + BlankLine, BlankLine, CRLF) == Join(lines, CRLF) + CRLF
  {
    var h := Join(lines, CRLF);
    BlankLineAfterHead(lines, "");
    assert h + BlankLine + "" == h + BlankLine;
    ReplaceAtEnd(h, BlankLine, CRLF);
  }

  /**
   * The layout of a response text: `head` is the head's lines joined by
   * CRLF, the first blank line is the one right after it, and what follows
   * that blank line is `rest`.
   */
  predicate Layout(text: string, lines: seq<string>, rest: string)
  {
    && |lines| >= 1
    && text == Join(lines, CRLF) + BlankLine + rest
    && Find(text, BlankLine) == Some(|Join(lines, CRLF)|)
    && Split(Join(lines, CRLF), CRLF) == lines
  }

  lemma LayoutOf(lines: seq<string>, rest: string)
    requires |lines| >= 1
    requires forall i :: 0 <= i < |lines| ==> lines[i] != [] && Free(lines[i], '\r')
    ensures Layout(Join(lines, CRLF) + BlankLine + rest, lines, rest)
  {
    BlankLineAfterHead(lines, rest);
    FreeHasNoOccurrence(lines[|lines| - 1], CRLF);
    SplitOfJoin(lines, CRLF);
  }

  lemma DoubleCRLF(h: string, rest: string)
    ensures h + CRLF + CRLF + rest == h + BlankLine + rest
  {
    assert CRLF + CRLF == BlankLine;
  }

  /** A collapsed clean head, then CRLF: its lines end in one blank line, with `rest` after it. */
  lemma CollapsedLayout(lines: seq<string>, rest: string)
    requires |lines| >= 1
    requires forall i :: 0 <= i < |lines| ==> lines[i] != [] && Free(lines[i], '\r')
    ensures Layout(Replace(Join(lines, CRLF) + BlankLine, BlankLine, CRLF) + CRLF + rest, lines, rest)
  {
    var h := Join(lines, CRLF);
    var r := Replace(h + BlankLine, BlankLine, CRLF);
    CollapsedHead(lines);
    DoubleCRLF(h, rest);
    assert r + CRLF + rest == h + BlankLine + rest;
    LayoutOf(lines, rest);
  }

  /** A collapsed clean head with one more line `x` appended, then CRLF: `x` is the last head line. */
  lemma AppendedLineLayout(lines: seq<string>, x: string, rest: string)
    requires |lines| >= 1
    requires forall i :: 0 <= i < |lines| ==> lines[i] != [] && Free(lines[i], '\r')
    requires x != [] && Free(x, '\r')
    ensures Layout(Replace(Join(lines, CRLF) + BlankLine, BlankLine, CRLF) + x + CRLF + CRLF + rest, lines + [x], rest)
  {
    var h := Join(lines, CRLF);
    var r := Replace(h + BlankLine, BlankLine, CRLF);
    var all := lines + [x];
    CollapsedHead(lines);
    JoinSnoc(lines, x);
    var hx := Join(all, CRLF);
    assert r + x == hx;
    DoubleCRLF(hx, rest);
    assert r + x + CRLF + CRLF + rest == hx + CRLF + CRLF + rest;
    CleanSnoc(lines, x);
    LayoutOf(all, rest);
  }

  lemma CleanSnoc(lines: seq<string>, x: string)
    requires forall i :: 0 <= i < |lines| ==> lines[i] != [] && Free(lines[i], '\r')
    requires x != [] && Free(x, '\r')
    ensures forall i :: 0 <= i < |lines + [x]| ==> (lines + [x])[i] != [] && Free((lines + [x])[i], '\r')
  {
    assert forall i :: 0 <= i < |lines| ==> (lines + [x])[i] == lines[i];
  }

  lemma DefaultContentTypeFree()
    ensures DefaultContentType != [] && Free(DefaultContentType, '\r')
  {
  }

  /**
   * As written, without a "content-type" field: the head holds the status
   * line, the date, the content length, the fields and the default content
   * type, one per line, and the body follows the first blank line exactly.
   */
  lemma ResponseWithoutContentType(c: HttpStatusCode, rfc2822: string, order: seq<string>, m: map<string, string>, body: string)
    requires EnumeratesKeys(order, m) && Clean(rfc2822, m)
    requires "content-type" !in m
    ensures Layout(ResponseText(c, rfc2822, order, m, body),
                   FixedLines(c, rfc2822, |body|) + FieldTexts(order, m) + [DefaultContentType], body)
  {
    var lines := FixedLines(c, rfc2822, |body|) + FieldTexts(order, m);
    var head := HeadBlock(c, rfc2822, order, m, body);
    HeadBlockAsJoin(c, rfc2822, order, m, body);
    HeadLinesClean(c, rfc2822, order, m, body);
    DefaultContentTypeFree();
    assert ResponseText(c, rfc2822, order, m, body) == Replace(head, BlankLine, CRLF) + DefaultContentType + CRLF + CRLF + body;
    AppendedLineLayout(lines, DefaultContentType, body);
  }

  /**
   * As written, with a "content-type" field: the head is left ending in its
   * blank line and one more CRLF is pushed, so what follows the first blank
   * line is CRLF and the body, two characters more than the content length
   * announces.
   */
  lemma ResponseWithContentTypeShiftsBody(c: HttpStatusCode, rfc2822: string, order: seq<string>, m: map<string, string>, body: string)
    requires EnumeratesKeys(order, m) && Clean(rfc2822, m)
    requires "content-type" in m
    ensures Layout(ResponseText(c, rfc2822, order, m, body),
                   FixedLines(c, rfc2822, |body|) + FieldTexts(order, m), CRLF + body)
  {
    var lines := FixedLines(c, rfc2822, |body|) + FieldTexts(order, m);
    ResponseTextKeepsHead(c, rfc2822, order, m, body);
    HeadLinesClean(c, rfc2822, order, m, body);
    LayoutOf(lines, CRLF + body);
  }

  /** With a "content-type" field the head block is kept whole, blank line included. */
  lemma ResponseTextKeepsHead(c: HttpStatusCode, rfc2822: string, order: seq<string>, m: map<string, string>, body: string)
    requires forall i :: 0 <= i < |order| ==> order[i] in m
    requires "content-type" in m
    ensures ResponseText(c, rfc2822, order, m, body)
         == Join(FixedLines(c, rfc2822, |body|) + FieldTexts(order, m), CRLF) + BlankLine + (CRLF + body)
  {
    HeadBlockAsJoin(c, rfc2822, order, m, body);
    BodyAfterHead(HeadBlock(c, rfc2822, order, m, body),
      Join(FixedLines(c, rfc2822, |body|) + FieldTexts(order, m), CRLF), body);
  }

  /** Appending CRLF and the body to a head that ends in a blank line. */
  lemma BodyAfterHead(head: string, joined: string, body: string)
    requires head == joined + BlankLine
    ensures head + CRLF + body == joined + BlankLine + (CRLF + body)
  {
  }

  /** A handler that sets "content-type: application/json" and the body "{}": the client reads CRLF as the two-byte body. */
  lemma JsonResponseLosesBody(rfc2822: string)
    requires Free(rfc2822, '\r')
    ensures var m := map["content-type" := "application/json"];
      var text := ResponseText(HttpStatusCode.Ok, rfc2822, ["content-type"], m, "{}");
      var i := Find(text, BlankLine);
      i.Some? && text[i.value + 4..] == "\r\n{}"
  {
    var m := map["content-type" := "application/json"];
    assert EnumeratesKeys(["content-type"], m);
    ResponseWithContentTypeShiftsBody(HttpStatusCode.Ok, rfc2822, ["content-type"], m, "{}");
    var text := ResponseText(HttpStatusCode.Ok, rfc2822, ["content-type"], m, "{}");
    RestAfterBlankLine(text, FixedLines(HttpStatusCode.Ok, rfc2822, 2) + FieldTexts(["content-type"], m), CRLF + "{}");
  }

  /** In a laid-out text, what follows the first blank line is the rest. */
  lemma RestAfterBlankLine(text: string, lines: seq<string>, rest: string)
    requires Layout(text, lines, rest)
    ensures var i := Find(text, BlankLine);
      i.Some? && i.value + 4 <= |text| && text[i.value + 4..] == rest
  {
    var h := Join(lines, CRLF);
    assert text == h + BlankLine + rest;
    assert text[|h| + 4..] == rest;
  }

  /**
   * Corrected, with or without a "content-type" field: the head lines end
   * in one blank line and the body follows it exactly, so the content length
   * counts what follows the blank line.
   */
  lemma ResponseAsIntendedLayout(c: HttpStatusCode, rfc2822: string, order: seq<string>, m: map<string, string>, body: string)
    requires EnumeratesKeys(order, m) && Clean(rfc2822, m)
    ensures var lines := FixedLines(c, rfc2822, |body|) + FieldTexts(order, m);
      Layout(ResponseTextAsIntended(c, rfc2822, order, m, body),
             if "content-type" in m then lines else lines + [DefaultContentType], body)
  {
    var lines := FixedLines(c, rfc2822, |body|) + FieldTexts(order, m);
    var head := HeadBlock(c, rfc2822, order, m, body);
    HeadBlockAsJoin(c, rfc2822, order, m, body);
    HeadLinesClean(c, rfc2822, order, m, body);
    if "content-type" in m {
      assert ResponseTextAsIntended(c, rfc2822, order, m, body) == Replace(head, BlankLine, CRLF) + CRLF + body;
      CollapsedLayout(lines, body);
    } else {
      DefaultContentTypeFree();
      assert ResponseTextAsIntended(c, rfc2822, order, m, body) == Replace(head, BlankLine, CRLF) + DefaultContentType + CRLF + CRLF + body;
      AppendedLineLayout(lines, DefaultContentType, body);
    }
  }

}
