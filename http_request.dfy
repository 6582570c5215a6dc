// basic-http/src/request.rs: turning the bytes read from a connection into
// a request (start line, header fields, body), and rendering one back.
module BasicHttpRequest {
  import opened Wrappers
  import opened EthTypes
  import opened HttpText
  import opened BasicHttpStatus
  import opened BasicHttpHeader

  /** The size of the buffer a connection is read into. */
  const BufferSize: nat := 8096

  type Buffer = b: seq<u8> | |b| == BufferSize witness seq(BufferSize, _ => 0)

  /** `RawRequest`: the read buffer and how many of its bytes the read filled. */
  datatype RawRequest = RawRequest(buffer: Buffer, length: u64)

  /**
   * A parsed request. It owns a header and a body object that nothing
   * changes after parsing, so it holds their contents: the field map and the
   * body text (whose kind is always plain text).
   */
  datatype HttpRequest = HttpRequest(status: HttpStatus, header: map<string, string>, body: string)

  /** The outcome of parsing: a value, the `Err(())` the parser returns, or a panic in an `unwrap`. */
  datatype Parsed<T> = Parsed(value: T) | Rejected | Panicked

  /** `String::from_utf8_lossy`, reading each byte as the character with that code. */
  function Decode(bs: seq<u8>): (s: string)
    ensures |s| == |bs|
  {
    seq(|bs|, i requires 0 <= i < |bs| => bs[i] as char)
  }

  /**
   * `extract_start_line`. The regular expression
   * `(GET|POST|...|TRACE)\s\S+\sHTTP/\d\.\d` is the predicate `matches`; it is
   * searched for anywhere in the line, while the fields are taken from the
   * line split on single spaces, so a line the expression matches can still
   * have fewer than three space-separated tokens, and the `unwrap` panics.
   */
  function ExtractStartLine(line: string, matches: string -> bool): (r: Parsed<HttpStatus>)
    ensures Blank(line) ==> r == Rejected
    ensures !Blank(line) && !matches(line) ==> r == Rejected
    ensures r.Parsed? ==> r.value.code == 200
    ensures r.Parsed? ==> |Split(line, " ")| >= 3
    ensures r.Parsed? ==> [r.value.requestMethod, r.value.path, r.value.version] == Split(line, " ")[..3]
  {
    if Blank(line) then Rejected
    else if !matches(line) then Rejected
    else
      var tokens := Split(line, " ");
      if |tokens| < 3 then Panicked
      else Parsed(HttpStatus(200, tokens[0], tokens[1], tokens[2]))
  }

  /** One header line split on ": ": the name and the second token, or a panic when there is no second token. */
  function FieldOf(line: string): (r: Option<(string, string)>)
    ensures r.None? <==> Find(line, ": ").None?
  {
    var tokens := Split(line, ": ");
    if |tokens| < 2 then None else Some((tokens[0], tokens[1]))
  }

  /** The fields of the header lines after the start line, in order; None if one of them panics. */
  function HeaderFields(lines: seq<string>): (r: Option<seq<(string, string)>>)
    ensures r.Some? ==> |r.value| == |lines|
    ensures r.None? <==> exists i :: 0 <= i < |lines| && FieldOf(lines[i]).None?
    decreases |lines|
  {
    if lines == [] then Some([])
    else
      var front := lines[..|lines| - 1];
      match HeaderFields(front)
      case None =>
        assert exists i :: 0 <= i < |lines| && FieldOf(lines[i]).None? by {
          var i :| 0 <= i < |front| && FieldOf(front[i]).None?;
          assert lines[i] == front[i];
        }
        None
      case Some(fs) =>
        match FieldOf(lines[|lines| - 1])
        case None => None
        case Some(f) =>
          assert forall i :: 0 <= i < |front| ==> lines[i] == front[i];
          Some(fs + [f])
  }

  /** What `extract_header` computes: the start line, then the field map built line by line. */
  function HeaderOf(headerLiteral: string, matches: string -> bool): (r: Parsed<(HttpStatus, map<string, string>)>)
    ensures r.Rejected? <==> ExtractStartLine(Split(headerLiteral, CRLF)[0], matches).Rejected?
    ensures r.Parsed? ==> r.value.0.code == 200
    ensures r.Parsed? ==> HeaderFields(Split(headerLiteral, CRLF)[1..]).Some?
  {
    var lines := Split(headerLiteral, CRLF);
    match ExtractStartLine(lines[0], matches)
    case Rejected => Rejected
    case Panicked => Panicked
    case Parsed(status) =>
      match HeaderFields(lines[1..])
      case None => Panicked
      case Some(fs) => Parsed((status, ToMap(fs)))
  }

  /**
   * `extract_header`: parse the first line, then insert each later line's
   * name and value into a fresh map, a later line overwriting an earlier one
   * with the same name.
   */
  method ExtractHeader(headerLiteral: string, matches: string -> bool)
    returns (r: Parsed<(HttpStatus, map<string, string>)>)
    ensures r == HeaderOf(headerLiteral, matches)
  {
    var lines := Split(headerLiteral, CRLF);
    var status := ExtractStartLine(lines[0], matches);
    if !status.Parsed? {
      return if status.Rejected? then Rejected else Panicked;
    }
    var m: map<string, string> := map[];
    ghost var fs: seq<(string, string)> := [];
    var i := 1;
    while i < |lines|
      invariant 1 <= i <= |lines|
      invariant HeaderFields(lines[1..i]) == Some(fs)
      invariant m == ToMap(fs)
    {
      var tokens := Split(lines[i], ": ");
      HeaderFieldsExtend(lines, i, fs);
      if |tokens| < 2 {
        return Panicked;
      }
      var field := (tokens[0], tokens[1]);
      assert (fs + [field])[..|fs|] == fs;
      m := m[tokens[0] := tokens[1]];
      fs := fs + [field];
      i := i + 1;
    }
    assert lines[1..i] == lines[1..];
    r := Parsed((status.value, m));
  }

  /** One more header line either panics the whole parse or adds its field. */
  lemma HeaderFieldsExtend(lines: seq<string>, i: nat, fs: seq<(string, string)>)
    requires 1 <= i < |lines| && HeaderFields(lines[1..i]) == Some(fs)
    ensures FieldOf(lines[i]).None? ==> HeaderFields(lines[1..]).None?
    ensures FieldOf(lines[i]).Some? ==> HeaderFields(lines[1..i + 1]) == Some(fs + [FieldOf(lines[i]).value])
  {
    assert lines[1..i + 1][..i - 1] == lines[1..i];
    if FieldOf(lines[i]).None? {
      assert HeaderFields(lines[1..i + 1]).None?;
      HeaderFieldsPrefixFails(lines[1..], i);
    }
  }

  /** Once a prefix of the lines panics, so do all of them. */
  lemma HeaderFieldsPrefixFails(lines: seq<string>, n: nat)
    requires n <= |lines| && HeaderFields(lines[..n]).None?
    ensures HeaderFields(lines).None?
  {
    var i :| 0 <= i < n && FieldOf(lines[..n][i]).None?;
    assert lines[i] == lines[..n][i];
  }

  /** The head of the request text: everything before the first blank line. */
  function HeadText(text: string): string
  {
    Split(text, BlankLine)[0]
  }

  /** The body `from_raw_request` keeps: the second piece of the split on blank lines, or nothing. */
  function BodyText(text: string): (b: string)
    ensures Find(b, BlankLine).None?
  {
    var parts := Split(text, BlankLine);
    if |parts| > 1 then SplitPiecesHaveNoSeparator(text, BlankLine, 1); parts[1] else ""
  }

  /** `from_raw_request` on the decoded text. */
  function FromText(text: string, matches: string -> bool): (r: Parsed<HttpRequest>)
    ensures r.Rejected? <==> HeaderOf(HeadText(text), matches).Rejected?
  {
    match HeaderOf(HeadText(text), matches)
    case Rejected => Rejected
    case Panicked => Panicked
    case Parsed((status, header)) => Parsed(HttpRequest(status, header, BodyText(text)))
  }

  /** `from_raw_request`: slicing past the buffer panics; otherwise parse the decoded bytes. */
  function FromRawRequest(request: RawRequest, matches: string -> bool): (r: Parsed<HttpRequest>)
    ensures request.length as nat > BufferSize ==> r == Panicked
    ensures r.Parsed? ==> r.value.status.code == 200 && Find(r.value.body, BlankLine).None?
  {
    if request.length as nat > BufferSize then Panicked
    else FromText(Decode(request.buffer[..request.length]), matches)
  }

  /** The start line `to_string` writes: method, path and version separated by single spaces. */
  function StartLine(s: HttpStatus): string
  {
    s.requestMethod + " " + s.path + " " + s.version
  }

  /** `to_string` for a given iteration order of the header map: the start line, the header, the body. */
  function RequestToString(r: HttpRequest, order: seq<string>): (text: string)
    requires EnumeratesKeys(order, r.header)
    ensures |text| >= |StartLine(r.status)| + 2 + |r.body|
    ensures text[..|StartLine(r.status)| + 2] == StartLine(r.status) + CRLF
    ensures text[|text| - |r.body|..] == r.body
  {
    StartLine(r.status) + CRLF + Render(order, r.header) + r.body
  }

  // -------------------------------------------------------------------
  // Properties
  // -------------------------------------------------------------------

  /**
   * The body is the text between the first and the second blank line: empty
   * without a blank line, everything after it when there is only one, and
   * whatever follows a second blank line is dropped.
   */
  lemma BodyBetweenBlankLines(text: string)
    ensures Find(text, BlankLine).None? ==> BodyText(text) == ""
    ensures Find(text, BlankLine).Some? ==>
      var rest := text[Find(text, BlankLine).value + 4..];
      BodyText(text) == if Find(rest, BlankLine).None? then rest else rest[..Find(rest, BlankLine).value]
  {
    match Find(text, BlankLine)
    case None =>
    case Some(i) =>
      var rest := text[i + 4..];
      assert Split(text, BlankLine) == [text[..i]] + Split(rest, BlankLine);
  }

  /** `from_raw_request` fails exactly when the start line is refused. */
  lemma RejectedIffStartLineRejected(text: string, matches: string -> bool)
    ensures FromText(text, matches).Rejected? <==>
            ExtractStartLine(Split(HeadText(text), CRLF)[0], matches).Rejected?
  {
  }

  /** A header line without ": " panics the parse. */
  lemma LineWithoutColonPanics(text: string, matches: string -> bool, i: nat)
    requires var lines := Split(HeadText(text), CRLF);
             1 <= i < |lines| && Find(lines[i], ": ").None?
    requires ExtractStartLine(Split(HeadText(text), CRLF)[0], matches).Parsed?
    ensures FromText(text, matches) == Panicked
  {
    var lines := Split(HeadText(text), CRLF);
    assert lines[1..][i - 1] == lines[i];
  }

  /** ": " cannot straddle the end of a piece that does not contain it. */
  lemma FindAfterColon(a: string, b: string)
    requires Find(a, ": ").None?
    ensures Find(a + ": " + b, ": ") == Some(|a|)
  {
    var s := a + ": " + b;
    assert s[|a|..|a| + 2] == ": ";
    forall j: nat | j < |a|
      ensures !OccursAt(s, ": ", j)
    {
      if j + 2 <= |a| {
        assert s[j..j + 2] == a[j..j + 2];
        assert !OccursAt(a, ": ", j);
      } else {
        assert s[j + 1] == ':';
        assert s[j..j + 2][1] == s[j + 1];
      }
    }
    FindIs(s, ": ", |a|);
  }

  /**
   * A field's value is only the text up to the next ": ": a value that
   * contains ": " is cut there.
   */
  lemma FieldValueTruncated(k: string, v: string, rest: string)
    requires Find(k, ": ").None? && Find(v, ": ").None?
    ensures FieldOf(FieldText(k, v)) == Some((k, v))
    ensures FieldOf(FieldText(k, v) + ": " + rest) == Some((k, v))
  {
    FieldOfFieldText(k, v);
    FieldOfLongerLine(k, v, rest);
  }

  /** A line "name: value" whose parts hold no ": " parses to its name and value. */
  lemma FieldOfFieldText(k: string, v: string)
    requires Find(k, ": ").None? && Find(v, ": ").None?
    ensures FieldOf(FieldText(k, v)) == Some((k, v))
  {
    FindAfterColon(k, v);
    var s := k + ": " + v;
    assert s[..|k|] == k && s[|k| + 2..] == v;
    assert Split(v, ": ") == [v];
  }

  /** Text after a further ": " is dropped from the value. */
  lemma FieldOfLongerLine(k: string, v: string, rest: string)
    requires Find(k, ": ").None? && Find(v, ": ").None?
    ensures FieldOf(FieldText(k, v) + ": " + rest) == Some((k, v))
  {
    FindAfterColon(k, v + ": " + rest);
    var t := k + ": " + (v + ": " + rest);
    assert FieldText(k, v) + ": " + rest == t;
    assert t[..|k|] == k && t[|k| + 2..] == v + ": " + rest;
    FindAfterColon(v, rest);
    var u := v + ": " + rest;
    assert u[..|v|] == v;
    assert Split(u, ": ") == [v] + Split(u[|v| + 2..], ": ");
  }

  /** The value stored under a name is the one on the last line with that name. */
  lemma {:induction false} LastFieldWins(ps: seq<(string, string)>, i: nat)
    requires i < |ps|
    requires forall j :: i < j < |ps| ==> ps[j].0 != ps[i].0
    ensures ps[i].0 in ToMap(ps) && ToMap(ps)[ps[i].0] == ps[i].1
    decreases |ps|
  {
    if i < |ps| - 1 {
      LastFieldWins(ps[..|ps| - 1], i);
    }
  }

  /** The fields of rendered field texts are the pairs they were rendered from. */
  lemma {:induction false} FieldsOfRendered(order: seq<string>, m: map<string, string>)
    requires forall i :: 0 <= i < |order| ==> order[i] in m
    requires forall i :: 0 <= i < |order| ==> Free(order[i], ':') && Find(m[order[i]], ": ").None?
    ensures HeaderFields(FieldTexts(order, m)) == Some(Pairs(order, m))
    decreases |order|
  {
    if order != [] {
      var front := order[..|order| - 1];
      var k := order[|order| - 1];
      FieldsOfRendered(front, m);
      FreeHasNoOccurrence(k, ": ");
      FieldValueTruncated(k, m[k], "");
      var ls := FieldTexts(order, m);
      assert ls[..|ls| - 1] == FieldTexts(front, m);
    }
  }

  /** A request the parser can reproduce: single-token start line fields, and no line breaks or stray separators in fields or body. */
  predicate WellFormed(r: HttpRequest)
  {
    && r.status.code == 200
    && r.status.requestMethod != [] && !IsWhitespace(r.status.requestMethod[0])
    && Free(r.status.requestMethod, ' ') && Free(r.status.path, ' ') && Free(r.status.version, ' ')
    && Free(r.status.requestMethod, '\r') && Free(r.status.path, '\r') && Free(r.status.version, '\r')
    && (forall k :: k in r.header ==> Free(k, ':') && Free(k, '\r'))
    && (forall k :: k in r.header ==> Free(r.header[k], '\r') && Find(r.header[k], ": ").None?)
    && Find(r.body, BlankLine).None?
  }

  /** Text made of a head of clean lines, a blank line and a body splits back into the head and the body. */
  lemma HeadAndBody(lines: seq<string>, body: string)
    requires |lines| >= 1
    requires forall i :: 0 <= i < |lines| ==> lines[i] != [] && Free(lines[i], '\r')
    requires Find(body, BlankLine).None?
    ensures HeadText(Join(lines, CRLF) + BlankLine + body) == Join(lines, CRLF)
    ensures BodyText(Join(lines, CRLF) + BlankLine + body) == body
    ensures Split(Join(lines, CRLF), CRLF) == lines
  {
    var head := Join(lines, CRLF);
    var text := head + BlankLine + body;
    BlankLineAfterHead(lines, body);
    assert Split(body, BlankLine) == [body];
    assert Split(text, BlankLine) == [head] + Split(body, BlankLine) by {
      assert text[..|head|] == head && text[|head| + 4..] == body;
    }
    FreeHasNoOccurrence(lines[|lines| - 1], CRLF);
    SplitOfJoin(lines, CRLF);
  }

  /** A start line of three clean tokens that the expression accepts parses back to its status. */
  lemma StartLineRoundTrip(st: HttpStatus, matches: string -> bool)
    requires st.code == 200
    requires st.requestMethod != [] && !IsWhitespace(st.requestMethod[0])
    requires Free(st.requestMethod, ' ') && Free(st.path, ' ') && Free(st.version, ' ')
    requires matches(StartLine(st))
    ensures ExtractStartLine(StartLine(st), matches) == Parsed(st)
  {
    var sl := StartLine(st);
    assert Join([st.requestMethod, st.path, st.version], " ") == sl by {
      assert [st.requestMethod, st.path, st.version][1..] == [st.path, st.version];
      assert [st.path, st.version][1..] == [st.version];
      assert Join([st.path, st.version], " ") == st.path + " " + st.version;
      assert Join([st.requestMethod, st.path, st.version], " ") == st.requestMethod + " " + (st.path + " " + st.version);
    }
    FreeHasNoOccurrence(st.version, " ");
    SplitOfJoin([st.requestMethod, st.path, st.version], " ");
    assert !Blank(sl) by {
      assert sl[0] == st.requestMethod[0];
    }
  }

  lemma FreeAppend(a: string, b: string, c: char)
    requires Free(a, c) && Free(b, c)
    ensures Free(a + b, c)
  {
  }

  /** The lines of a well-formed request's head are non-empty and hold no carriage return. */
  lemma HeadLinesClean(r: HttpRequest, order: seq<string>)
    requires EnumeratesKeys(order, r.header)
    requires WellFormed(r)
    ensures forall i :: 0 <= i < |order| + 1 ==>
      ([StartLine(r.status)] + FieldTexts(order, r.header))[i] != [] &&
      Free(([StartLine(r.status)] + FieldTexts(order, r.header))[i], '\r')
  {
    var st := r.status;
    var lines := [StartLine(st)] + FieldTexts(order, r.header);
    forall i | 0 <= i < |lines|
      ensures lines[i] != [] && Free(lines[i], '\r')
    {
      if i > 0 {
        var k := order[i - 1];
        assert lines[i] == k + ": " + r.header[k];
        FreeAppend(k, ": ", '\r');
        FreeAppend(k + ": ", r.header[k], '\r');
      } else {
        FreeAppend(st.requestMethod, " ", '\r');
        FreeAppend(st.requestMethod + " ", st.path, '\r');
        FreeAppend(st.requestMethod + " " + st.path, " ", '\r');
        FreeAppend(st.requestMethod + " " + st.path + " ", st.version, '\r');
      }
    }
  }

  /**
   * Rendering a well-formed request with `to_string`, in any iteration order
   * of its header, and parsing the text gives the request back, provided the
   * start-line expression accepts its start line.
   */
  lemma RequestRoundTrip(r: HttpRequest, order: seq<string>, matches: string -> bool)
    requires EnumeratesKeys(order, r.header)
    requires WellFormed(r)
    requires matches(StartLine(r.status))
    ensures FromText(RequestToString(r, order), matches) == Parsed(r)
  {
    var sl := StartLine(r.status);
    var fts := FieldTexts(order, r.header);
    var lines := [sl] + fts;
    var text := RequestToString(r, order);
    RenderAsJoin(sl, order, r.header);
    assert text == Join(lines, CRLF) + BlankLine + r.body;
    HeadLinesClean(r, order);
    HeadAndBody(lines, r.body);
    StartLineRoundTrip(r.status, matches);
    FieldsOfRendered(order, r.header);
    assert lines[1..] == fts;
    PairsRebuild(order, r.header);
  }
}
