/** Reading a dumped registry: a string-aware scanner cuts the text into its top-level objects,
    and an envelope check accepts only lists of objects. */
module Registry {
  import opened Wrappers

  // ---- What a text of objects looks like ----

  datatype StringChar = Raw(c: char) | Escape(c: char)

  /** Text in which braces outside strings are balanced. */
  datatype Piece = Plain(c: char) | Quoted(chars: seq<StringChar>) | Nested(pieces: seq<Piece>)

  predicate PlainChar(c: char) { c != '"' && c != '{' && c != '}' }

  predicate WellFormedString(chars: seq<StringChar>) {
    forall i :: 0 <= i < |chars| && chars[i].Raw? ==> chars[i].c != '"' && chars[i].c != '\\'
  }

  predicate WellFormed(p: Piece)
    decreases p
  {
    match p
    case Plain(c) => PlainChar(c)
    case Quoted(chars) => WellFormedString(chars)
    case Nested(pieces) => AllWellFormed(pieces)
  }

  predicate AllWellFormed(pieces: seq<Piece>)
    decreases pieces
  {
    pieces == [] || (WellFormed(pieces[0]) && AllWellFormed(pieces[1..]))
  }

  function PrintChar(c: StringChar): string { if c.Raw? then [c.c] else ['\\', c.c] }

  function PrintString(chars: seq<StringChar>): string {
    if chars == [] then ""
    else PrintChar(chars[0]) + PrintString(chars[1..])
  }

  function Print(p: Piece): (r: string)
    ensures r != ""
    decreases p
  {
    match p
    case Plain(c) => [c]
    case Quoted(chars) => "\"" + PrintString(chars) + "\""
    case Nested(pieces) => "{" + PrintAll(pieces) + "}"
  }

  function PrintAll(pieces: seq<Piece>): string
    decreases pieces
  {
    if pieces == [] then "" else Print(pieces[0]) + PrintAll(pieces[1..])
  }

  /** The printed objects at the top level. */
  function Objects(pieces: seq<Piece>): seq<string> {
    if pieces == [] then []
    else (if pieces[0].Nested? then [Print(pieces[0])] else []) + Objects(pieces[1..])
  }

  // ---- The scanner ----

  /** `current` is the text since the outermost open brace. */
  datatype Scan = Scan(depth: nat, current: Option<string>, inString: bool, escaped: bool, objects: seq<string>)

  const START: Scan := Scan(0, None, false, false, [])

  function Collect(s: Scan, c: char): Scan {
    if s.current.Some? then s.(current := Some(s.current.value + [c])) else s
  }

  /** One character; nothing for a closing brace too many. */
  function Consume(s: Scan, c: char): Option<Scan> {
    if s.inString then
      Some(Collect(
        if s.escaped then s.(escaped := false)
        else if c == '\\' then s.(escaped := true)
        else if c == '"' then s.(inString := false) else s, c))
    else if c == '"' then Some(Collect(s.(inString := true), c))
    else if c == '{' then
      Some(Collect(s.(depth := s.depth + 1, current := if s.depth == 0 then Some("") else s.current), c))
    else if c == '}' then
      if s.depth == 0 then None
      else if s.depth > 1 then Some(Collect(s.(depth := s.depth - 1), c))
      else if s.current.None? then None
      else Some(s.(depth := 0, current := None, objects := s.objects + [s.current.value + [c]]))
    else Some(Collect(s, c))
  }

  function Run(s: Option<Scan>, text: string): Option<Scan>
    decreases |text|
  {
    if s.None? || text == "" then s else Run(Consume(s.value, text[0]), text[1..])
  }

  predicate Finished(s: Scan) { s.depth == 0 && !s.inString && s.current.None? }

  function JsonObjects(text: string): Option<seq<string>> {
    var end := Run(Some(START), text);
    if end.Some? && Finished(end.value) then Some(end.value.objects) else None
  }

  lemma {:induction false} RunConcat(s: Option<Scan>, a: string, b: string)
    ensures Run(s, a + b) == Run(Run(s, a), b)
    decreases |a|
  {
    if a == "" {
      assert a + b == b;
    } else if s.Some? {
      assert (a + b)[0] == a[0] && (a + b)[1..] == a[1..] + b;
      RunConcat(Consume(s.value, a[0]), a[1..], b);
    }
  }

  // ---- Printed text scans to its objects ----

  /** Between pieces: outside strings, collecting exactly inside braces. */
  predicate Between(s: Scan) { !s.inString && !s.escaped && (s.depth > 0 <==> s.current.Some?) }

  function Advance(s: Scan, text: string, objects: seq<string>): Scan
    requires Between(s)
  {
    if s.depth > 0 then s.(current := Some(s.current.value + text)) else s.(objects := s.objects + objects)
  }

  function Gain(s: Scan, text: string): Scan {
    if s.current.Some? then s.(current := Some(s.current.value + text)) else s
  }

  lemma OneChar(s: Scan, c: char)
    ensures Run(Some(s), [c]) == Consume(s, c)
  {
    assert [c][1..] == "";
  }

  lemma StringCharRuns(s: Scan, c: StringChar)
    requires WellFormedString([c]) && s.inString && !s.escaped
    ensures Run(Some(s), PrintChar(c)) == Some(Gain(s, PrintChar(c)))
  {
    assert [c][0] == c;
    if c.Raw? {
      OneChar(s, c.c);
    } else {
      assert PrintChar(c) == ['\\'] + [c.c];
      RunConcat(Some(s), ['\\'], [c.c]);
      OneChar(s, '\\');
      OneChar(Consume(s, '\\').value, c.c);
      assert s.current.Some? ==> s.current.value + ['\\'] + [c.c] == s.current.value + PrintChar(c);
    }
  }

  lemma {:induction false} StringRuns(s: Scan, chars: seq<StringChar>)
    requires WellFormedString(chars) && s.inString && !s.escaped
    ensures Run(Some(s), PrintString(chars)) == Some(Gain(s, PrintString(chars)))
    decreases |chars|
  {
    if chars == [] {
      assert s.current.Some? ==> s.current.value + "" == s.current.value;
    } else {
      var first, rest := PrintChar(chars[0]), PrintString(chars[1..]);
      RunConcat(Some(s), first, rest);
      StringCharRuns(s, chars[0]);
      StringRuns(Gain(s, first), chars[1..]);
      assert s.current.Some? ==> s.current.value + first + rest == s.current.value + (first + rest);
    }
  }

  lemma {:induction false} PieceRuns(s: Scan, p: Piece)
    requires WellFormed(p) && Between(s)
    ensures Run(Some(s), Print(p)) == Some(Advance(s, Print(p), if p.Nested? then [Print(p)] else []))
    decreases p
  {
    match p {
      case Plain(c) =>
        OneChar(s, c);
        assert s.objects + [] == s.objects;
      case Quoted(chars) => QuotedRuns(s, chars);
      case Nested(pieces) =>
        var s1 := Collect(s.(depth := s.depth + 1, current := if s.depth == 0 then Some("") else s.current), '{');
        OneChar(s, '{');
        PiecesRun(s1, pieces);
        var s2 := s1.(current := Some(s1.current.value + PrintAll(pieces)));
        OneChar(s2, '}');
        Wrapped(s, "{", PrintAll(pieces), "}");
        assert s.depth == 0 ==> "" + "{" + PrintAll(pieces) + "}" == Print(p);
        assert s.depth > 0 ==> s.current.value + "{" + PrintAll(pieces) + "}" == s.current.value + Print(p);
    }
  }

  lemma Wrapped(s: Scan, a: string, b: string, c: string)
    ensures Run(Some(s), a + b + c) == Run(Run(Run(Some(s), a), b), c)
  {
    RunConcat(Some(s), a + b, c);
    RunConcat(Some(s), a, b);
  }

  lemma QuotedRuns(s: Scan, chars: seq<StringChar>)
    requires WellFormedString(chars) && Between(s)
    ensures Run(Some(s), Print(Quoted(chars))) == Some(Advance(s, Print(Quoted(chars)), []))
  {
    var s1 := Collect(s.(inString := true), '"');
    OneChar(s, '"');
    StringRuns(s1, chars);
    var s2 := Gain(s1, PrintString(chars));
    OneChar(s2, '"');
    Wrapped(s, "\"", PrintString(chars), "\"");
    assert s.objects + [] == s.objects;
    assert s.depth > 0 ==> s.current.value + "\"" + PrintString(chars) + "\"" == s.current.value + Print(Quoted(chars));
  }

  lemma {:induction false} PiecesRun(s: Scan, pieces: seq<Piece>)
    requires AllWellFormed(pieces) && Between(s)
    ensures Run(Some(s), PrintAll(pieces)) == Some(Advance(s, PrintAll(pieces), Objects(pieces)))
    decreases pieces
  {
    if pieces == [] {
      assert s.objects + [] == s.objects;
      assert s.depth > 0 ==> s.current.value + "" == s.current.value;
    } else {
      var p := pieces[0];
      var found := if p.Nested? then [Print(p)] else [];
      PieceRuns(s, p);
      RunConcat(Some(s), Print(p), PrintAll(pieces[1..]));
      PiecesRun(Advance(s, Print(p), found), pieces[1..]);
      AdvanceTwice(s, Print(p), PrintAll(pieces[1..]), found, Objects(pieces[1..]));
    }
  }

  lemma AdvanceTwice(s: Scan, a: string, b: string, x: seq<string>, y: seq<string>)
    requires Between(s)
    ensures Advance(Advance(s, a, x), b, y) == Advance(s, a + b, x + y)
  {
    if s.depth > 0 {
      assert s.current.value + a + b == s.current.value + (a + b);
    } else {
      assert s.objects + x + y == s.objects + (x + y);
    }
  }

  /** Scanning inverts printing: escapes, quotes and braces inside strings included. */
  lemma ScanInvertsPrinting(pieces: seq<Piece>)
    requires AllWellFormed(pieces)
    ensures JsonObjects(PrintAll(pieces)) == Some(Objects(pieces))
  {
    PiecesRun(START, pieces);
    assert [] + Objects(pieces) == Objects(pieces);
  }

  // ---- Accepted text is printed text ----

  lemma {:induction false} PiecesGrow(pieces: seq<Piece>, p: Piece)
    ensures PrintAll(pieces + [p]) == PrintAll(pieces) + Print(p)
    ensures Objects(pieces + [p]) == Objects(pieces) + (if p.Nested? then [Print(p)] else [])
    ensures AllWellFormed(pieces) && WellFormed(p) ==> AllWellFormed(pieces + [p])
    decreases |pieces|
  {
    if pieces == [] {
      assert [] + [p] == [p] && [p][1..] == [];
      assert Print(p) + "" == Print(p);
    } else {
      assert (pieces + [p])[0] == pieces[0] && (pieces + [p])[1..] == pieces[1..] + [p];
      PiecesGrow(pieces[1..], p);
    }
  }

  lemma {:induction false} StringGrows(chars: seq<StringChar>, c: StringChar)
    ensures PrintString(chars + [c]) == PrintString(chars) + PrintChar(c)
    decreases |chars|
  {
    if chars == [] {
      assert [] + [c] == [c] && [c][1..] == [];
    } else {
      assert (chars + [c])[0] == chars[0] && (chars + [c])[1..] == chars[1..] + [c];
      StringGrows(chars[1..], c);
    }
  }

  /** Text of the frames opened inside the outermost one. */
  function Tail(frames: seq<seq<Piece>>): string {
    if |frames| <= 1 then "" else Tail(frames[..|frames| - 1]) + "{" + PrintAll(frames[|frames| - 1])
  }

  function StringText(open: Option<seq<StringChar>>, escaped: bool): string {
    if open.None? then "" else "\"" + PrintString(open.value) + (if escaped then "\\" else "")
  }

  /** The scanner's state after reading a text: frames of finished pieces, innermost last, and
      the string that is still open. */
  ghost predicate Reads(s: Scan, frames: seq<seq<Piece>>, open: Option<seq<StringChar>>, consumed: string) {
    && |frames| == s.depth + 1
    && (forall i :: 0 <= i < |frames| ==> AllWellFormed(frames[i]))
    && (open.Some? ==> WellFormedString(open.value))
    && s.inString == open.Some? && (s.escaped ==> s.inString)
    && s.objects == Objects(frames[0])
    && s.current == (if s.depth == 0 then None else Some(Tail(frames) + StringText(open, s.escaped)))
    && consumed == PrintAll(frames[0]) + (Tail(frames) + StringText(open, s.escaped))
  }

  /** The innermost frame gains a finished piece. */
  function Deepen(frames: seq<seq<Piece>>, p: Piece): seq<seq<Piece>>
    requires frames != []
  {
    frames[|frames| - 1 := frames[|frames| - 1] + [p]]
  }

  lemma DeepenText(frames: seq<seq<Piece>>, p: Piece)
    requires frames != [] && WellFormed(p) && forall i :: 0 <= i < |frames| ==> AllWellFormed(frames[i])
    ensures var frames' := Deepen(frames, p);
            && (forall i :: 0 <= i < |frames'| ==> AllWellFormed(frames'[i]))
            && PrintAll(frames'[0]) + Tail(frames') == PrintAll(frames[0]) + Tail(frames) + Print(p)
            && (|frames| > 1 ==> frames'[0] == frames[0] && Tail(frames') == Tail(frames) + Print(p))
            && (|frames| == 1 ==> Tail(frames') == "" && Objects(frames'[0]) == Objects(frames[0])
                                  + (if p.Nested? then [Print(p)] else []))
  {
    var n := |frames| - 1;
    PiecesGrow(frames[n], p);
    assert Deepen(frames, p)[..n] == frames[..n];
    if n > 0 {
      assert Tail(frames[..n]) + "{" + (PrintAll(frames[n]) + Print(p)) == Tail(frames) + Print(p);
      assert PrintAll(frames[0]) + (Tail(frames) + Print(p)) == PrintAll(frames[0]) + Tail(frames) + Print(p);
    } else {
      assert PrintAll(frames[0]) + "" == PrintAll(frames[0]);
      assert PrintAll(frames[0]) + Print(p) + "" == PrintAll(frames[0]) + Print(p);
    }
  }

  /** A character inside a string extends the open text. */
  lemma StringExtends(s: Scan, frames: seq<seq<Piece>>, open: Option<seq<StringChar>>, consumed: string, c: char,
                      open': Option<seq<StringChar>>, escaped': bool)
    requires Reads(s, frames, open, consumed) && s.inString
    requires open'.Some? && WellFormedString(open'.value)
    requires StringText(open', escaped') == StringText(open, s.escaped) + [c]
    ensures Reads(Collect(s.(escaped := escaped'), c), frames, open', consumed + [c])
  {
    var before, tail, text := PrintAll(frames[0]), Tail(frames), StringText(open, s.escaped);
    assert before + (tail + text) + [c] == before + (tail + (text + [c]));
    assert tail + text + [c] == tail + (text + [c]);
  }

  lemma StringCloses(s: Scan, frames: seq<seq<Piece>>, chars: seq<StringChar>, consumed: string)
    requires Reads(s, frames, Some(chars), consumed) && !s.escaped
    ensures Reads(Collect(s.(inString := false), '"'), Deepen(frames, Quoted(chars)), None, consumed + "\"")
  {
    var before, tail, text := PrintAll(frames[0]), Tail(frames), StringText(Some(chars), false);
    var frames' := Deepen(frames, Quoted(chars));
    DeepenText(frames, Quoted(chars));
    assert text + "\"" == Print(Quoted(chars));
    assert before + (tail + text) + "\"" == before + tail + (text + "\"");
    assert tail + text + "\"" == tail + (text + "\"");
    assert Tail(frames') + "" == Tail(frames');
    assert Objects(frames[0]) + [] == Objects(frames[0]);
  }

  lemma StringStep(s: Scan, frames: seq<seq<Piece>>, open: Option<seq<StringChar>>, consumed: string, c: char)
    returns (frames': seq<seq<Piece>>, open': Option<seq<StringChar>>)
    requires Reads(s, frames, open, consumed) && s.inString
    ensures Consume(s, c).Some? && Reads(Consume(s, c).value, frames', open', consumed + [c])
  {
    frames', open' := frames, open;
    if !s.escaped && c == '"' {
      frames', open' := Deepen(frames, Quoted(open.value)), None;
      StringCloses(s, frames, open.value, consumed);
    } else if !s.escaped && c == '\\' {
      assert StringText(open, true) == StringText(open, false) + [c];
      StringExtends(s, frames, open, consumed, c, open, true);
    } else {
      var next := if s.escaped then Escape(c) else Raw(c);
      open' := Some(open.value + [next]);
      StringGrows(open.value, next);
      assert StringText(open', false) == StringText(open, s.escaped) + [c];
      StringExtends(s, frames, open, consumed, c, open', false);
    }
  }

  lemma PlainStep(s: Scan, frames: seq<seq<Piece>>, consumed: string, c: char)
    returns (frames': seq<seq<Piece>>)
    requires Reads(s, frames, None, consumed) && PlainChar(c)
    ensures Consume(s, c).Some? && Reads(Consume(s, c).value, frames', None, consumed + [c])
  {
    frames' := Deepen(frames, Plain(c));
    DeepenText(frames, Plain(c));
    assert Tail(frames) + "" == Tail(frames) && Tail(frames') + "" == Tail(frames');
    assert Objects(frames[0]) + [] == Objects(frames[0]);
  }

  lemma QuoteStep(s: Scan, frames: seq<seq<Piece>>, consumed: string)
    requires Reads(s, frames, None, consumed)
    ensures Consume(s, '"').Some? && Reads(Consume(s, '"').value, frames, Some([]), consumed + "\"")
  {
    assert StringText(Some([]), false) == "\"";
    assert PrintAll(frames[0]) + (Tail(frames) + "") + "\"" == PrintAll(frames[0]) + (Tail(frames) + "\"");
    assert Tail(frames) + "" + "\"" == Tail(frames) + "\"";
  }

  lemma OpenStep(s: Scan, frames: seq<seq<Piece>>, consumed: string)
    returns (frames': seq<seq<Piece>>)
    requires Reads(s, frames, None, consumed)
    ensures Consume(s, '{').Some? && Reads(Consume(s, '{').value, frames', None, consumed + "{")
  {
    frames' := frames + [[]];
    assert frames'[..|frames|] == frames;
    assert Tail(frames') + "" == Tail(frames) + "" + "{";
    assert PrintAll(frames[0]) + (Tail(frames) + "") + "{" == PrintAll(frames'[0]) + (Tail(frames') + "");
    if s.depth == 0 {
      assert "" + "{" == Tail(frames') + "";
    }
  }

  lemma CloseStep(s: Scan, frames: seq<seq<Piece>>, consumed: string)
    returns (frames': seq<seq<Piece>>)
    requires Reads(s, frames, None, consumed) && s.depth > 0
    ensures Consume(s, '}').Some? && Reads(Consume(s, '}').value, frames', None, consumed + "}")
  {
    var n := |frames| - 1;
    var outer, p := frames[..n], Nested(frames[n]);
    frames' := Deepen(outer, p);
    DeepenText(outer, p);
    assert Tail(frames) + "" == Tail(frames) && Tail(frames') + "" == Tail(frames');
    assert Tail(frames) + "}" == Tail(outer) + Print(p);
    assert PrintAll(frames[0]) + Tail(frames) + "}" == PrintAll(frames[0]) + (Tail(outer) + Print(p));
    assert PrintAll(frames[0]) + (Tail(outer) + Print(p)) == PrintAll(outer[0]) + Tail(outer) + Print(p);
    if n == 1 {
      assert "" + Print(p) == Print(p);
    }
  }

  lemma {:induction false} Reconstruct(s: Scan, frames: seq<seq<Piece>>, open: Option<seq<StringChar>>, consumed: string,
                                       text: string)
    returns (pieces: seq<Piece>)
    requires Reads(s, frames, open, consumed)
    requires Run(Some(s), text).Some? && Finished(Run(Some(s), text).value)
    ensures AllWellFormed(pieces) && consumed + text == PrintAll(pieces)
    ensures Run(Some(s), text).value.objects == Objects(pieces)
    decreases |text|
  {
    if text == "" {
      pieces := frames[0];
      assert PrintAll(frames[0]) + ("" + "") == PrintAll(frames[0]);
    } else {
      var c := text[0];
      var frames', open' := frames, open;
      if s.inString {
        frames', open' := StringStep(s, frames, open, consumed, c);
      } else if c == '"' {
        open' := Some([]);
        QuoteStep(s, frames, consumed);
      } else if c == '{' {
        frames' := OpenStep(s, frames, consumed);
      } else if c == '}' {
        frames' := CloseStep(s, frames, consumed);
      } else {
        frames' := PlainStep(s, frames, consumed, c);
      }
      pieces := Reconstruct(Consume(s, c).value, frames', open', consumed + [c], text[1..]);
      assert consumed + [c] + text[1..] == consumed + text;
    }
  }

  /** The scanner accepts exactly the texts whose braces balance outside strings, and returns
      exactly their top-level objects. */
  lemma ScannerAcceptsExactlyBalanced(text: string, objects: seq<string>)
    ensures JsonObjects(text) == Some(objects)
            <==> exists pieces :: AllWellFormed(pieces) && text == PrintAll(pieces) && objects == Objects(pieces)
  {
    if JsonObjects(text) == Some(objects) {
      assert Reads(START, [[]], None, "");
      var pieces := Reconstruct(START, [[]], None, "", text);
      assert "" + text == text;
    }
    forall pieces | AllWellFormed(pieces) && text == PrintAll(pieces)
      ensures JsonObjects(text) == Some(Objects(pieces))
    {
      ScanInvertsPrinting(pieces);
    }
  }

  // ---- The scanner's own form ----

  /** One pass over the text, remembering where the outermost object starts. */
  method ScanObjects(text: string) returns (r: Option<seq<string>>)
    ensures r == JsonObjects(text)
  {
    var objects: seq<string> := [];
    var depth: nat, start: Option<nat>, inString, escaped := 0, None, false, false;
    var index := 0;
    while index < |text|
      invariant 0 <= index <= |text|
      invariant start.Some? ==> start.value <= index
      invariant Run(Some(START), text[..index])
             == Some(Scan(depth, if start.Some? then Some(text[start.value..index]) else None, inString, escaped, objects))
    {
      var c := text[index];
      assert text[..index + 1] == text[..index] + [c];
      RunConcat(Some(START), text[..index], [c]);
      ghost var s := Scan(depth, if start.Some? then Some(text[start.value..index]) else None, inString, escaped, objects);
      OneChar(s, c);
      assert start.Some? ==> text[start.value..index + 1] == text[start.value..index] + [c];
      ghost var rest := text[index + 1..];
      assert text == text[..index + 1] + rest;
      RunConcat(Some(START), text[..index + 1], rest);
      index := index + 1;
      if inString {
        if escaped {
          escaped := false;
        } else if c == '\\' {
          escaped := true;
        } else if c == '"' {
          inString := false;
        }
      } else if c == '"' {
        inString := true;
      } else if c == '{' {
        if depth == 0 {
          start := Some(index - 1);
          assert text[index - 1..index] == [c] == "" + [c];
        }
        depth := depth + 1;
      } else if c == '}' {
        if depth == 0 {
          return None;
        }
        depth := depth - 1;
        if depth == 0 {
          if start.None? {
            return None;
          }
          objects := objects + [text[start.value..index]];
          start := None;
        }
      }
    }
    assert text[..index] == text;
    if depth != 0 || inString || start.Some? {
      return None;
    }
    r := Some(objects);
  }
}
