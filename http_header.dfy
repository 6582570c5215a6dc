// basic-http/src/header.rs: the header fields of a message, a map from
// field name to value. A HashMap's iteration order is unspecified, so the
// operations that walk it return, as a ghost, the order they took.
module BasicHttpHeader {
  import opened Wrappers
  import opened HttpText

  /** `order` lists every key of `m` exactly once. */
  predicate EnumeratesKeys(order: seq<string>, m: map<string, string>)
  {
    && (forall i, j :: 0 <= i < j < |order| ==> order[i] != order[j])
    && (forall i :: 0 <= i < |order| ==> order[i] in m)
    && (forall k :: k in m ==> k in order)
  }

  /** The entries of `m` as (name, value) pairs, in the given key order. */
  function Pairs(order: seq<string>, m: map<string, string>): (ps: seq<(string, string)>)
    requires forall i :: 0 <= i < |order| ==> order[i] in m
    ensures |ps| == |order|
    ensures forall i :: 0 <= i < |order| ==> ps[i] == (order[i], m[order[i]])
    decreases |order|
  {
    if order == [] then []
    else
      var k := order[|order| - 1];
      Pairs(order[..|order| - 1], m) + [(k, m[k])]
  }

  /** The map a list of pairs builds when inserted left to right, later pairs overwriting earlier ones. */
  function ToMap(ps: seq<(string, string)>): map<string, string>
    decreases |ps|
  {
    if ps == [] then map[]
    else ToMap(ps[..|ps| - 1])[ps[|ps| - 1].0 := ps[|ps| - 1].1]
  }

  /** One rendered field without its line break: "name: value". */
  function FieldText(k: string, v: string): string
  {
    k + ": " + v
  }

  /** The rendered field lines, each ended by CRLF, in the given key order. */
  function RenderLines(order: seq<string>, m: map<string, string>): string
    requires forall i :: 0 <= i < |order| ==> order[i] in m
    decreases |order|
  {
    if order == [] then ""
    else
      var k := order[|order| - 1];
      RenderLines(order[..|order| - 1], m) + FieldText(k, m[k]) + CRLF
  }

  /** What `to_string` produces for a given iteration order: the field lines, then a blank line. */
  function Render(order: seq<string>, m: map<string, string>): string
    requires forall i :: 0 <= i < |order| ==> order[i] in m
  {
    RenderLines(order, m) + CRLF
  }

  class HttpHeader {
    var entries: map<string, string>

    /** `HttpHeader::default`: no fields. */
    constructor Default()
      ensures entries == map[]
    {
      entries := map[];
    }

    /** `From<HashMap>`: wraps the map as it is. */
    constructor FromMap(m: map<string, string>)
      ensures entries == m
    {
      entries := m;
    }

    /** `clone`: a new header built by inserting every entry, in iteration order. */
    method Clone() returns (c: HttpHeader)
      ensures fresh(c) && c.entries == entries
    {
      var copy: map<string, string> := map[];
      var remaining := entries.Keys;
      while remaining != {}
        invariant remaining <= entries.Keys
        invariant forall k :: k in copy <==> k in entries && k !in remaining
        invariant forall k :: k in copy ==> copy[k] == entries[k]
        decreases |remaining|
      {
        var k :| k in remaining;
        copy := copy[k := entries[k]];
        remaining := remaining - {k};
      }
      c := new HttpHeader.FromMap(copy);
    }

    /** `headers`: every entry once, as a pair, in iteration order. */
    method Headers() returns (v: seq<(string, string)>, ghost order: seq<string>)
      ensures EnumeratesKeys(order, entries)
      ensures v == Pairs(order, entries)
    {
      v := [];
      order := [];
      var remaining := entries.Keys;
      while remaining != {}
        invariant remaining <= entries.Keys
        invariant forall i, j :: 0 <= i < j < |order| ==> order[i] != order[j]
        invariant forall i :: 0 <= i < |order| ==> order[i] in entries && order[i] !in remaining
        invariant forall k :: k in entries && k !in remaining ==> k in order
        invariant v == Pairs(order, entries)
        decreases |remaining|
      {
        var k :| k in remaining;
        v := v + [(k, entries[k])];
        order := order + [k];
        remaining := remaining - {k};
      }
    }

    /** `to_string`: "name: value" and CRLF for every entry in iteration order, then CRLF. */
    method ToString() returns (s: string, ghost order: seq<string>)
      ensures EnumeratesKeys(order, entries)
      ensures s == Render(order, entries)
    {
      s := "";
      order := [];
      var remaining := entries.Keys;
      while remaining != {}
        invariant remaining <= entries.Keys
        invariant forall i, j :: 0 <= i < j < |order| ==> order[i] != order[j]
        invariant forall i :: 0 <= i < |order| ==> order[i] in entries && order[i] !in remaining
        invariant forall k :: k in entries && k !in remaining ==> k in order
        invariant s == RenderLines(order, entries)
        decreases |remaining|
      {
        var k :| k in remaining;
        s := s + k + ": " + entries[k] + "\r\n";
        order := order + [k];
        remaining := remaining - {k};
      }
      s := s + "\r\n";
    }

    /** `add_header`: refuses a name already present, otherwise inserts the field. */
    method AddHeader(key: string, value: string) returns (r: Result<(), ()>)
      modifies this
      ensures key in old(entries) ==> r == Err(()) && entries == old(entries)
      ensures key !in old(entries) ==> r == Ok(()) && entries == old(entries)[key := value]
    {
      if key in entries {
        return Err(());
      }
      entries := entries[key := value];
      return Ok(());
    }

    /** `remove_header`: deletes the field and says whether it was there. */
    method RemoveHeader(key: string) returns (removed: bool)
      modifies this
      ensures removed <==> key in old(entries)
      ensures entries == old(entries) - {key}
    {
      if key in entries {
        entries := entries - {key};
        return true;
      }
      return false;
    }
  }

  /** Inserting a fresh name and removing it again gives the original fields back. */
  lemma AddThenRemove(m: map<string, string>, key: string, value: string)
    requires key !in m
    ensures m[key := value] - {key} == m
  {
    assert (m[key := value] - {key}).Keys == m.Keys;
  }

  /** A header with no fields renders as the bare blank line, whatever the iteration order. */
  lemma EmptyRendersBlankLine(order: seq<string>)
    requires EnumeratesKeys(order, map[])
    ensures Render(order, map[]) == "\r\n"
  {
  }

  /** Inserting the listed pairs of `m` into an empty map, in any listing order, rebuilds `m`. */
  lemma {:induction false} PairsRebuild(order: seq<string>, m: map<string, string>)
    requires EnumeratesKeys(order, m)
    ensures ToMap(Pairs(order, m)) == m
  {
    PairsRebuildPrefix(order, m);
    assert forall k :: k in m <==> k in order;
  }

  lemma {:induction false} PairsRebuildPrefix(order: seq<string>, m: map<string, string>)
    requires forall i :: 0 <= i < |order| ==> order[i] in m
    ensures forall k :: k in ToMap(Pairs(order, m)) <==> k in order
    ensures forall k :: k in ToMap(Pairs(order, m)) ==> ToMap(Pairs(order, m))[k] == m[k]
    decreases |order|
  {
    if order != [] {
      var front := order[..|order| - 1];
      PairsRebuildPrefix(front, m);
      var ps := Pairs(order, m);
      assert ps[..|ps| - 1] == Pairs(front, m);
      assert forall k :: k in order <==> k in front || k == order[|order| - 1];
    }
  }

  /**
   * The head of a message as the request parser sees it: a first line, CRLF,
   * then the rendered header, is the first line and the field texts joined by
   * CRLF, followed by a blank line.
   */
  lemma RenderAsJoin(first: string, order: seq<string>, m: map<string, string>)
    requires forall i :: 0 <= i < |order| ==> order[i] in m
    ensures first + CRLF + Render(order, m) == Join([first] + FieldTexts(order, m), CRLF) + BlankLine
  {
    LinesAsJoin(first, order, m);
    var j := Join([first] + FieldTexts(order, m), CRLF);
    assert j + CRLF + CRLF == j + BlankLine;
    assert first + CRLF + Render(order, m) == first + CRLF + RenderLines(order, m) + CRLF;
  }

  lemma {:induction false} LinesAsJoin(first: string, order: seq<string>, m: map<string, string>)
    requires forall i :: 0 <= i < |order| ==> order[i] in m
    ensures first + CRLF + RenderLines(order, m) == Join([first] + FieldTexts(order, m), CRLF) + CRLF
    decreases |order|
  {
    if order != [] {
      var front := order[..|order| - 1];
      var k := order[|order| - 1];
      var x := FieldText(k, m[k]);
      var prev := [first] + FieldTexts(front, m);
      LinesAsJoin(first, front, m);
      JoinSnoc(prev, x);
      assert FieldTexts(order, m) == FieldTexts(front, m) + [x];
      assert [first] + FieldTexts(order, m) == prev + [x];
      assert RenderLines(order, m) == RenderLines(front, m) + x + CRLF;
      LineAppended(first, RenderLines(front, m), x, Join(prev, CRLF));
    }
  }

  lemma LineAppended(a: string, lines: string, x: string, j: string)
    requires a + CRLF + lines == j + CRLF
    ensures a + CRLF + (lines + x + CRLF) == j + CRLF + x + CRLF
  {
    calc {
      a + CRLF + (lines + x + CRLF);
      (a + CRLF + lines) + x + CRLF;
      j + CRLF + x + CRLF;
    }
  }

  /** The field texts without line breaks, in the given key order. */
  function FieldTexts(order: seq<string>, m: map<string, string>): (ls: seq<string>)
    requires forall i :: 0 <= i < |order| ==> order[i] in m
    ensures |ls| == |order|
    ensures forall i :: 0 <= i < |order| ==> ls[i] == FieldText(order[i], m[order[i]])
    decreases |order|
  {
    if order == [] then []
    else
      var k := order[|order| - 1];
      FieldTexts(order[..|order| - 1], m) + [FieldText(k, m[k])]
  }

  lemma {:induction false} JoinSnoc(parts: seq<string>, x: string)
    requires |parts| >= 1
    ensures Join(parts + [x], CRLF) == Join(parts, CRLF) + CRLF + x
    decreases |parts|
  {
    if |parts| > 1 {
      JoinSnoc(parts[1..], x);
      assert (parts + [x])[1..] == parts[1..] + [x];
    } else {
      assert (parts + [x])[1..] == [x];
    }
  }
}
