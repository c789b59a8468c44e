/** The envelope around the scanned objects: a bracketed body is accepted exactly when it is a
    comma-separated list of them. */
module RegistryEnvelope {
  import opened Wrappers
  import opened Registry

  // ---- Whitespace ----

  /** Unicode White_Space. */
  predicate IsSpace(c: char) {
    var n := c as int;
    || 9 <= n <= 13 || n == 32 || n == 0x85 || n == 0xA0 || n == 0x1680 || 0x2000 <= n <= 0x200A
    || n == 0x2028 || n == 0x2029 || n == 0x202F || n == 0x205F || n == 0x3000
  }

  predicate AllSpace(s: string) { forall i :: 0 <= i < |s| ==> IsSpace(s[i]) }

  function TrimStart(s: string): (r: string)
    ensures |r| <= |s|
    ensures r == "" || !IsSpace(r[0])
  {
    if s != "" && IsSpace(s[0]) then TrimStart(s[1..]) else s
  }

  function TrimEnd(s: string): (r: string)
    ensures |r| <= |s|
  {
    if s != "" && IsSpace(s[|s| - 1]) then TrimEnd(s[..|s| - 1]) else s
  }

  function Trim(s: string): string { TrimEnd(TrimStart(s)) }

  lemma {:induction false} TrimStartCuts(space: string, rest: string)
    requires AllSpace(space) && (rest == "" || !IsSpace(rest[0]))
    ensures TrimStart(space + rest) == rest
    decreases |space|
  {
    if space == "" {
      assert space + rest == rest;
    } else {
      assert (space + rest)[0] == space[0] && (space + rest)[1..] == space[1..] + rest;
      TrimStartCuts(space[1..], rest);
    }
  }

  lemma {:induction false} TrimEndCuts(rest: string, space: string)
    requires AllSpace(space) && (rest == "" || !IsSpace(rest[|rest| - 1]))
    ensures TrimEnd(rest + space) == rest
    decreases |space|
  {
    if space == "" {
      assert rest + space == rest;
    } else {
      var n := |space| - 1;
      assert (rest + space)[|rest + space| - 1] == space[n] && (rest + space)[..|rest + space| - 1] == rest + space[..n];
      TrimEndCuts(rest, space[..n]);
    }
  }

  lemma {:induction false} TrimStartSplits(s: string) returns (space: string)
    ensures AllSpace(space) && s == space + TrimStart(s)
    decreases |s|
  {
    if s != "" && IsSpace(s[0]) {
      var rest := TrimStartSplits(s[1..]);
      space := [s[0]] + rest;
      assert s == [s[0]] + s[1..];
    } else {
      space := "";
    }
  }

  lemma {:induction false} TrimEndSplits(s: string) returns (space: string)
    ensures AllSpace(space) && s == TrimEnd(s) + space
    decreases |s|
  {
    if s != "" && IsSpace(s[|s| - 1]) {
      var n := |s| - 1;
      var rest := TrimEndSplits(s[..n]);
      space := rest + [s[n]];
      assert s == s[..n] + [s[n]];
    } else {
      space := "";
    }
  }

  // ---- The envelope check ----

  /** Peel the objects off the text one by one, commas between them. */
  predicate Peels(remaining: string, objects: seq<string>, first: bool)
    decreases |objects|
  {
    if objects == [] then remaining == ""
    else if !first && (remaining == "" || remaining[0] != ',') then false
    else
      var r := if first then remaining else TrimStart(remaining[1..]);
      objects[0] <= r && Peels(TrimStart(r[|objects[0]|..]), objects[1..], false)
  }

  function Envelope(body: string): Option<seq<string>> {
    var objects := JsonObjects(body);
    if objects.Some? && Peels(Trim(body), objects.value, true) then objects else None
  }

  // ---- Lists of objects ----

  datatype Gap = Gap(before: string, after: string)

  predicate GapsOk(gaps: seq<Gap>) { forall i :: 0 <= i < |gaps| ==> AllSpace(gaps[i].before) && AllSpace(gaps[i].after) }

  /** Every further object with its comma and the space around it. */
  function Rest(objects: seq<string>, gaps: seq<Gap>): string
    requires |gaps| == |objects|
  {
    if objects == [] then ""
    else gaps[0].before + "," + (gaps[0].after + (objects[0] + Rest(objects[1..], gaps[1..])))
  }

  function List(objects: seq<string>, gaps: seq<Gap>): string
    requires |gaps| == if objects == [] then 0 else |objects| - 1
  {
    if objects == [] then "" else objects[0] + Rest(objects[1..], gaps)
  }

  ghost predicate IsObject(o: string) { exists p: Piece :: p.Nested? && WellFormed(p) && o == Print(p) }

  ghost predicate AllObjects(objects: seq<string>) { forall i :: 0 <= i < |objects| ==> IsObject(objects[i]) }

  /** Whitespace, objects separated by commas with optional whitespace, whitespace. */
  ghost predicate IsList(body: string, objects: seq<string>) {
    exists lead: string, gaps: seq<Gap>, trail: string :: Lists(body, objects, lead, gaps, trail)
  }

  ghost predicate Lists(body: string, objects: seq<string>, lead: string, gaps: seq<Gap>, trail: string) {
    && AllSpace(lead) && AllSpace(trail) && GapsOk(gaps) && AllObjects(objects)
    && |gaps| == (if objects == [] then 0 else |objects| - 1)
    && body == lead + (List(objects, gaps) + trail)
  }

  lemma ObjectEnds(o: string)
    requires IsObject(o)
    ensures |o| >= 2 && o[0] == '{' && o[|o| - 1] == '}'
  {
    var p: Piece :| p.Nested? && WellFormed(p) && o == Print(p);
    assert Print(p) == "{" + PrintAll(p.pieces) + "}";
  }

  // ---- A list scans to its objects ----

  /** Separators leave the scanner as it is. */
  lemma {:induction false} PlainRuns(s: Scan, text: string)
    requires Between(s) && s.depth == 0 && forall i :: 0 <= i < |text| ==> PlainChar(text[i])
    ensures Run(Some(s), text) == Some(s)
    decreases |text|
  {
    if text != "" {
      PlainRuns(s, text[1..]);
    }
  }

  lemma ObjectRuns(s: Scan, o: string)
    requires Between(s) && s.depth == 0 && IsObject(o)
    ensures Run(Some(s), o) == Some(s.(objects := s.objects + [o]))
  {
    var p: Piece :| p.Nested? && WellFormed(p) && o == Print(p);
    PieceRuns(s, p);
  }

  lemma GapRuns(s: Scan, gap: Gap)
    requires Between(s) && s.depth == 0 && AllSpace(gap.before) && AllSpace(gap.after)
    ensures Run(Some(s), gap.before + "," + gap.after) == Some(s)
  {
    PlainRuns(s, gap.before + "," + gap.after);
  }

  lemma {:induction false} RestRuns(s: Scan, objects: seq<string>, gaps: seq<Gap>)
    requires Between(s) && s.depth == 0 && |gaps| == |objects| && GapsOk(gaps) && AllObjects(objects)
    ensures Run(Some(s), Rest(objects, gaps)) == Some(s.(objects := s.objects + objects))
    decreases |objects|
  {
    if objects == [] {
      assert s.objects + [] == s.objects;
    } else {
      var gap, o, rest := gaps[0].before + "," + gaps[0].after, objects[0], Rest(objects[1..], gaps[1..]);
      assert Rest(objects, gaps) == gap + (o + rest);
      GapRuns(s, gaps[0]);
      ObjectRuns(s, o);
      RunConcat(Some(s), gap, o + rest);
      RunConcat(Some(s), o, rest);
      RestRuns(s.(objects := s.objects + [o]), objects[1..], gaps[1..]);
      assert s.objects + [o] + objects[1..] == s.objects + objects;
    }
  }

  lemma ListScans(body: string, objects: seq<string>, lead: string, gaps: seq<Gap>, trail: string)
    requires Lists(body, objects, lead, gaps, trail)
    ensures JsonObjects(body) == Some(objects)
  {
    PlainRuns(START, lead);
    RunConcat(Some(START), lead, List(objects, gaps) + trail);
    var end := START.(objects := objects);
    assert Run(Some(START), List(objects, gaps)) == Some(end) by {
      if objects != [] {
        ObjectRuns(START, objects[0]);
        assert START.objects + [objects[0]] == [objects[0]];
        RunConcat(Some(START), objects[0], Rest(objects[1..], gaps));
        RestRuns(START.(objects := [objects[0]]), objects[1..], gaps);
        assert [objects[0]] + objects[1..] == objects;
      }
    }
    RunConcat(Some(START), List(objects, gaps), trail);
    PlainRuns(end, trail);
  }

  // ---- A list peels ----

  lemma {:induction false} RestPeels(objects: seq<string>, gaps: seq<Gap>)
    requires |gaps| == |objects| && GapsOk(gaps) && AllObjects(objects)
    ensures Peels(TrimStart(Rest(objects, gaps)), objects, false)
    decreases |objects|
  {
    if objects != [] {
      var o, rest := objects[0], Rest(objects[1..], gaps[1..]);
      ObjectEnds(o);
      var tail := gaps[0].after + (o + rest);
      assert Rest(objects, gaps) == gaps[0].before + ("," + tail);
      TrimStartCuts(gaps[0].before, "," + tail);
      assert ("," + tail)[1..] == tail;
      TrimStartCuts(gaps[0].after, o + rest);
      assert (o + rest)[|o|..] == rest;
      RestPeels(objects[1..], gaps[1..]);
    }
  }

  lemma {:induction false} RestEnds(objects: seq<string>, gaps: seq<Gap>)
    requires |gaps| == |objects| && AllObjects(objects) && objects != []
    ensures Rest(objects, gaps) != "" && Rest(objects, gaps)[|Rest(objects, gaps)| - 1] == '}'
    decreases |objects|
  {
    ObjectEnds(objects[0]);
    if |objects| > 1 {
      RestEnds(objects[1..], gaps[1..]);
    }
  }

  /** Trimming the body leaves exactly the list. */
  lemma ListTrims(body: string, objects: seq<string>, lead: string, gaps: seq<Gap>, trail: string)
    requires Lists(body, objects, lead, gaps, trail)
    ensures Trim(body) == List(objects, gaps)
  {
    if objects == [] {
      assert lead + ("" + trail) == lead + trail + "";
      TrimStartCuts(lead + trail, "");
    } else {
      var list := List(objects, gaps);
      ObjectEnds(objects[0]);
      if |objects| > 1 {
        RestEnds(objects[1..], gaps);
      }
      assert list != "" && list[0] == '{' && list[|list| - 1] == '}';
      TrimStartCuts(lead, list + trail);
      TrimEndCuts(list, trail);
    }
  }

  lemma ListIsAccepted(body: string, objects: seq<string>, lead: string, gaps: seq<Gap>, trail: string)
    requires Lists(body, objects, lead, gaps, trail)
    ensures Envelope(body) == Some(objects)
  {
    ListScans(body, objects, lead, gaps, trail);
    ListTrims(body, objects, lead, gaps, trail);
    if objects != [] {
      var rest := Rest(objects[1..], gaps);
      assert List(objects, gaps)[|objects[0]|..] == rest;
      RestPeels(objects[1..], gaps);
    }
  }

  // ---- What peels is a list ----

  /** The text up to and including one peeled object. */
  lemma PeelStep(text: string, o: string) returns (gap: Gap)
    requires TrimStart(text) != "" && TrimStart(text)[0] == ',' && o <= TrimStart(TrimStart(text)[1..])
    ensures AllSpace(gap.before) && AllSpace(gap.after)
    ensures text == gap.before + ("," + (gap.after + (o + TrimStart(TrimStart(text)[1..])[|o|..])))
  {
    var r := TrimStart(text);
    var t := TrimStart(r[1..]);
    var before := TrimStartSplits(text);
    var after := TrimStartSplits(r[1..]);
    assert t == o + t[|o|..];
    assert r == "," + r[1..];
    gap := Gap(before, after);
  }

  lemma {:induction false} PeeledRest(text: string, objects: seq<string>) returns (gaps: seq<Gap>, trail: string)
    requires Peels(TrimStart(text), objects, false)
    ensures |gaps| == |objects| && GapsOk(gaps) && AllSpace(trail) && text == Rest(objects, gaps) + trail
    decreases |objects|
  {
    if objects == [] {
      trail := TrimStartSplits(text);
      gaps := [];
      assert text == "" + trail;
    } else {
      var o := objects[0];
      var gap := PeelStep(text, o);
      var rest;
      rest, trail := PeeledRest(TrimStart(TrimStart(text)[1..])[|o|..], objects[1..]);
      gaps := [gap] + rest;
      assert gaps[1..] == rest && gaps[0] == gap;
      Assembled(gap, o, Rest(objects[1..], rest), trail);
    }
  }

  lemma Assembled(gap: Gap, o: string, rest: string, trail: string)
    ensures gap.before + ("," + (gap.after + (o + (rest + trail)))) == gap.before + "," + (gap.after + (o + rest)) + trail
  {
  }

  lemma {:induction false} ObjectsAreObjects(pieces: seq<Piece>)
    requires AllWellFormed(pieces)
    ensures AllObjects(Objects(pieces))
    decreases |pieces|
  {
    if pieces != [] {
      ObjectsAreObjects(pieces[1..]);
      if pieces[0].Nested? {
        assert IsObject(Print(pieces[0]));
      }
    }
  }

  lemma AcceptedIsList(body: string, objects: seq<string>)
    requires Envelope(body) == Some(objects)
    ensures IsList(body, objects)
  {
    ScannerAcceptsExactlyBalanced(body, objects);
    var pieces :| AllWellFormed(pieces) && body == PrintAll(pieces) && objects == Objects(pieces);
    ObjectsAreObjects(pieces);
    PeeledList(body, objects);
  }

  lemma TrimSplits(body: string) returns (lead: string, space: string)
    ensures AllSpace(lead) && AllSpace(space) && body == lead + (Trim(body) + space)
  {
    lead := TrimStartSplits(body);
    space := TrimEndSplits(TrimStart(body));
  }

  lemma PeeledList(body: string, objects: seq<string>)
    requires AllObjects(objects) && Peels(Trim(body), objects, true)
    ensures IsList(body, objects)
  {
    var lead, space := TrimSplits(body);
    if objects == [] {
      assert Lists(body, objects, lead, [], space);
    } else {
      var t, o := Trim(body), objects[0];
      assert t == o + t[|o|..];
      var gaps, rest := PeeledRest(t[|o|..], objects[1..]);
      Regroup(o, Rest(objects[1..], gaps), rest, space);
      assert Lists(body, objects, lead, gaps, rest + space);
    }
  }

  lemma Regroup(o: string, rest: string, trail: string, space: string)
    ensures o + (rest + trail) + space == o + rest + (trail + space)
  {
  }

  /** A bracketed body is accepted, and with exactly these objects, if and only if it is a
      comma-separated list of them with optional whitespace around each. */
  lemma EnvelopeAcceptsExactlyLists(body: string, objects: seq<string>)
    ensures Envelope(body) == Some(objects) <==> IsList(body, objects)
  {
    if Envelope(body) == Some(objects) {
      AcceptedIsList(body, objects);
    }
    if IsList(body, objects) {
      var lead: string, gaps: seq<Gap>, trail: string :| Lists(body, objects, lead, gaps, trail);
      ListIsAccepted(body, objects, lead, gaps, trail);
    }
  }

  // ---- The check's own form ----

  method CheckEnvelope(body: string) returns (r: Option<seq<string>>)
    ensures r == Envelope(body)
  {
    r := ScanObjects(body);
    if r.None? {
      return;
    }
    var objects := r.value;
    var remaining := Trim(body);
    assert objects[0..] == objects;
    for index := 0 to |objects|
      invariant Peels(remaining, objects[index..], index == 0) == Peels(Trim(body), objects, true)
    {
      assert objects[index..][1..] == objects[index + 1..];
      if index > 0 {
        if remaining == "" || remaining[0] != ',' {
          return None;
        }
        remaining := TrimStart(remaining[1..]);
      }
      if !(objects[index] <= remaining) {
        return None;
      }
      remaining := TrimStart(remaining[|objects[index]|..]);
    }
    if remaining != "" {
      return None;
    }
  }
}
