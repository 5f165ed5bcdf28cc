/** The template registry's spelling help: `_levenshtein` computes the least number of single-character edits, and
    `suggest_correction` picks the first nearest path. */
module EditDistance {
  import opened Wrappers

  // --- edit scripts ----------------------------------------------------------------------------------------

  /** One edit of a string, at a position of the string as it is then. */
  datatype Edit = Insert(at: nat, c: char) | Delete(at: nat) | Substitute(at: nat, c: char)

  predicate Applies(e: Edit, s: string) {
    if e.Insert? then e.at <= |s| else e.at < |s|
  }

  function Edited(e: Edit, s: string): string
    requires Applies(e, s)
  {
    match e
    case Insert(i, c) => s[..i] + [c] + s[i..]
    case Delete(i) => s[..i] + s[i + 1..]
    case Substitute(i, c) => s[..i] + [c] + s[i + 1..]
  }

  /** The script's edits, one after the other, turn `a` into `b`. */
  predicate Turns(script: seq<Edit>, a: string, b: string)
    decreases |script|
  {
    if script == [] then a == b
    else Applies(script[0], a) && Turns(script[1..], Edited(script[0], a), b)
  }

  // --- the recurrence --------------------------------------------------------------------------------------

  function Min(x: nat, y: nat): nat {
    if x <= y then x else y
  }

  function Init(s: string): string
    requires s != ""
  {
    s[..|s| - 1]
  }

  function Last(s: string): char
    requires s != ""
  {
    s[|s| - 1]
  }

  /** One step of the recurrence, from the three neighbours. */
  function Nearest(deleted: nat, inserted: nat, matched: nat, same: bool): nat {
    Min(Min(deleted + 1, inserted + 1), matched + if same then 0 else 1)
  }

  function Dist(a: string, b: string): nat
    decreases |a| + |b|
  {
    if a == "" then |b|
    else if b == "" then |a|
    else Nearest(Dist(Init(a), b), Dist(a, Init(b)), Dist(Init(a), Init(b)), Last(a) == Last(b))
  }

  // --- some script is that short ---------------------------------------------------------------------------

  lemma TurnsFirst(e: Edit, rest: seq<Edit>, a: string, b: string)
    requires Applies(e, a) && Turns(rest, Edited(e, a), b)
    ensures Turns([e] + rest, a, b)
  {
    assert ([e] + rest)[1..] == rest;
  }

  lemma {:induction false} TurnsThen(s: seq<Edit>, t: seq<Edit>, both: seq<Edit>, a: string, b: string, c: string)
    requires Turns(s, a, b) && Turns(t, b, c) && both == s + t
    ensures Turns(both, a, c)
    decreases |s|
  {
    if s == [] {
      assert both == t;
    } else {
      assert both[0] == s[0] && both[1..] == s[1..] + t;
      TurnsThen(s[1..], t, both[1..], Edited(s[0], a), b, c);
    }
  }

  lemma EditedBefore(e: Edit, a: string, c: char)
    requires Applies(e, a)
    ensures Applies(e, a + [c]) && Edited(e, a + [c]) == Edited(e, a) + [c]
  {
    assert (a + [c])[..e.at] == a[..e.at];
    match e
    case Insert(i, _) => assert (a + [c])[i..] == a[i..] + [c];
    case Delete(i) => assert (a + [c])[i + 1..] == a[i + 1..] + [c];
    case Substitute(i, _) => assert (a + [c])[i + 1..] == a[i + 1..] + [c];
  }

  /** A script also works in front of a character it never touches. */
  lemma {:induction false} TurnsBefore(script: seq<Edit>, a: string, b: string, c: char)
    requires Turns(script, a, b)
    ensures Turns(script, a + [c], b + [c])
    decreases |script|
  {
    if script != [] {
      EditedBefore(script[0], a, c);
      TurnsBefore(script[1..], Edited(script[0], a), b, c);
    }
  }

  lemma {:induction false} Spelled(b: string) returns (script: seq<Edit>)
    ensures Turns(script, "", b) && |script| == |b|
    decreases |b|
  {
    script := [];
    if b != "" {
      script := Spelled(Init(b));
      AppendInsert(script, "", b);
      script := script + [Insert(|b| - 1, Last(b))];
    }
  }

  lemma AppendInsert(script: seq<Edit>, a: string, b: string)
    requires b != "" && Turns(script, a, Init(b))
    ensures Turns(script + [Insert(|b| - 1, Last(b))], a, b)
  {
    var e := Insert(|b| - 1, Last(b));
    assert Edited(e, Init(b)) == b;
    TurnsFirst(e, [], Init(b), b);
    assert [e] + [] == [e];
    TurnsThen(script, [e], script + [e], a, Init(b), b);
  }

  lemma PrependDelete(script: seq<Edit>, a: string, b: string)
    requires a != "" && Turns(script, Init(a), b)
    ensures Turns([Delete(|a| - 1)] + script, a, b)
  {
    assert Edited(Delete(|a| - 1), a) == Init(a);
    TurnsFirst(Delete(|a| - 1), script, a, b);
  }

  lemma LastMatched(script: seq<Edit>, a: string, b: string)
    requires a != "" && b != "" && Turns(script, Init(a), Init(b))
    ensures Last(a) == Last(b) ==> Turns(script, a, b)
    ensures Turns([Substitute(|a| - 1, Last(b))] + script, a, b)
  {
    var e := Substitute(|a| - 1, Last(b));
    assert Init(b) + [Last(b)] == b && Init(a) + [Last(a)] == a;
    assert Edited(e, a) == Init(a) + [Last(b)];
    TurnsBefore(script, Init(a), Init(b), Last(b));
    TurnsFirst(e, script, a, b);
  }

  /** A script of exactly the computed length. */
  lemma {:induction false} Reached(a: string, b: string) returns (script: seq<Edit>)
    ensures Turns(script, a, b) && |script| == Dist(a, b)
    decreases |a| + |b|
  {
    if a == "" {
      script := Spelled(b);
    } else if b == "" || Dist(a, b) == Dist(Init(a), b) + 1 {
      script := Reached(Init(a), b);
      PrependDelete(script, a, b);
      script := [Delete(|a| - 1)] + script;
    } else if Dist(a, b) == Dist(a, Init(b)) + 1 {
      script := Reached(a, Init(b));
      AppendInsert(script, a, b);
      script := script + [Insert(|b| - 1, Last(b))];
    } else {
      script := Reached(Init(a), Init(b));
      LastMatched(script, a, b);
      script := if Last(a) == Last(b) then script else [Substitute(|a| - 1, Last(b))] + script;
    }
  }

  // --- no script is shorter --------------------------------------------------------------------------------

  lemma {:induction false} EqualIsZero(a: string)
    ensures Dist(a, a) == 0
    decreases |a|
  {
    if a != "" {
      EqualIsZero(Init(a));
    }
  }

  /** Appending a character to the source moves the distance by at most one, either way. */
  lemma {:induction false} AppendMovesByOne(x: string, c: char, b: string)
    ensures Dist(x + [c], b) <= Dist(x, b) + 1
    ensures Dist(x, b) <= Dist(x + [c], b) + 1
    decreases |b|
  {
    assert Init(x + [c]) == x;
    if b != "" {
      AppendMovesByOne(x, c, Init(b));
      TargetStep(x, b);
    }
  }

  lemma TargetStep(x: string, b: string)
    requires b != ""
    ensures Dist(x, b) <= Dist(x, Init(b)) + 1
  {
  }

  /** Two sources that end alike are as near as their shorter prefixes are. */
  lemma AlikeAtTheEnd(s: string, t: string, b: string)
    requires s != "" && t != "" && b != "" && Last(s) == Last(t)
    requires Dist(Init(s), b) <= Dist(Init(t), b) + 1
    requires Dist(s, Init(b)) <= Dist(t, Init(b)) + 1
    requires Dist(Init(s), Init(b)) <= Dist(Init(t), Init(b)) + 1
    ensures Dist(s, b) <= Dist(t, b) + 1
  {
    NearestMovesByOne(Dist(Init(s), b), Dist(s, Init(b)), Dist(Init(s), Init(b)),
                      Dist(Init(t), b), Dist(t, Init(b)), Dist(Init(t), Init(b)), Last(s) == Last(b));
  }

  lemma NearestMovesByOne(d: nat, i: nat, m: nat, d': nat, i': nat, m': nat, same: bool)
    requires d <= d' + 1 && i <= i' + 1 && m <= m' + 1
    ensures Nearest(d, i, m, same) <= Nearest(d', i', m', same) + 1
  {
  }

  /** Deleting the character between `x` and `y` brings the target nearer by at most one. */
  lemma {:induction false} DeleteMovesByOne(x: string, c: char, y: string, b: string)
    ensures Dist(x + [c] + y, b) <= Dist(x + y, b) + 1
    decreases |y| + |b|
  {
    if y == "" {
      assert x + [c] + y == x + [c] && x + y == x;
      AppendMovesByOne(x, c, b);
    } else if b != "" {
      assert Init(x + [c] + y) == x + [c] + Init(y) && Init(x + y) == x + Init(y);
      DeleteMovesByOne(x, c, Init(y), b);
      DeleteMovesByOne(x, c, y, Init(b));
      DeleteMovesByOne(x, c, Init(y), Init(b));
      AlikeAtTheEnd(x + [c] + y, x + y, b);
    }
  }

  /** And so does inserting it. */
  lemma {:induction false} InsertMovesByOne(x: string, c: char, y: string, b: string)
    ensures Dist(x + y, b) <= Dist(x + [c] + y, b) + 1
    decreases |y| + |b|
  {
    if y == "" {
      assert x + [c] + y == x + [c] && x + y == x;
      AppendMovesByOne(x, c, b);
    } else if b != "" {
      assert Init(x + [c] + y) == x + [c] + Init(y) && Init(x + y) == x + Init(y);
      InsertMovesByOne(x, c, Init(y), b);
      InsertMovesByOne(x, c, y, Init(b));
      InsertMovesByOne(x, c, Init(y), Init(b));
      AlikeAtTheEnd(x + y, x + [c] + y, b);
    }
  }

  /** Replacing the character between `x` and `y` moves the distance by at most one. */
  lemma {:induction false} SubstituteMovesByOne(x: string, c: char, d: char, y: string, b: string)
    ensures Dist(x + [c] + y, b) <= Dist(x + [d] + y, b) + 1
    decreases |y| + |b|
  {
    var s, t := x + [c] + y, x + [d] + y;
    if b == "" {
    } else if y == "" {
      assert Init(s) == x && Init(t) == x;
      if Dist(t, b) == Dist(t, Init(b)) + 1 {
        SubstituteMovesByOne(x, c, d, y, Init(b));
      }
    } else {
      assert Init(s) == x + [c] + Init(y) && Init(t) == x + [d] + Init(y);
      SubstituteMovesByOne(x, c, d, Init(y), b);
      SubstituteMovesByOne(x, c, d, y, Init(b));
      SubstituteMovesByOne(x, c, d, Init(y), Init(b));
      AlikeAtTheEnd(s, t, b);
    }
  }

  lemma EditMovesByOne(e: Edit, a: string, b: string)
    requires Applies(e, a)
    ensures Dist(a, b) <= Dist(Edited(e, a), b) + 1
  {
    match e
    case Insert(i, c) =>
      assert a == a[..i] + a[i..];
      InsertMovesByOne(a[..i], c, a[i..], b);
    case Delete(i) =>
      assert a == a[..i] + [a[i]] + a[i + 1..];
      DeleteMovesByOne(a[..i], a[i], a[i + 1..], b);
    case Substitute(i, c) =>
      assert a == a[..i] + [a[i]] + a[i + 1..];
      SubstituteMovesByOne(a[..i], a[i], c, a[i + 1..], b);
  }

  lemma {:induction false} NoScriptIsShorter(script: seq<Edit>, a: string, b: string)
    requires Turns(script, a, b)
    ensures Dist(a, b) <= |script|
    decreases |script|
  {
    if script == [] {
      EqualIsZero(a);
    } else {
      EditMovesByOne(script[0], a, b);
      NoScriptIsShorter(script[1..], Edited(script[0], a), b);
    }
  }

  /** `n` is the length of a shortest script from `a` to `b`. */
  ghost predicate IsEditDistance(n: nat, a: string, b: string) {
    && (exists script :: Turns(script, a, b) && |script| == n)
    && (forall script | Turns(script, a, b) :: n <= |script|)
  }

  lemma DistIsEditDistance(a: string, b: string)
    ensures IsEditDistance(Dist(a, b), a, b)
  {
    var script := Reached(a, b);
    forall other | Turns(other, a, b) ensures Dist(a, b) <= |other| {
      NoScriptIsShorter(other, a, b);
    }
  }

  // --- a metric --------------------------------------------------------------------------------------------

  lemma {:induction false} Symmetric(a: string, b: string)
    ensures Dist(a, b) == Dist(b, a)
    decreases |a| + |b|
  {
    if a != "" && b != "" {
      Symmetric(Init(a), b);
      Symmetric(a, Init(b));
      Symmetric(Init(a), Init(b));
    }
  }

  lemma Triangle(a: string, b: string, c: string)
    ensures Dist(a, c) <= Dist(a, b) + Dist(b, c)
  {
    var s := Reached(a, b);
    var t := Reached(b, c);
    TurnsThen(s, t, s + t, a, b, c);
    NoScriptIsShorter(s + t, a, c);
  }

  lemma ZeroIffEqual(a: string, b: string)
    ensures Dist(a, b) == 0 <==> a == b
  {
    EqualIsZero(a);
    var script := Reached(a, b);
  }

  // --- the code --------------------------------------------------------------------------------------------

  /** The table the code fills in: entry (i, j) is about the first i and j characters. */
  function Entry(a: string, b: string, i: nat, j: nat): nat
    requires i <= |a| && j <= |b|
  {
    if i == 0 then j
    else if j == 0 then i
    else Nearest(Entry(a, b, i - 1, j), Entry(a, b, i, j - 1), Entry(a, b, i - 1, j - 1), a[i - 1] == b[j - 1])
  }

  lemma {:induction false} EntryIsDist(a: string, b: string, i: nat, j: nat)
    requires i <= |a| && j <= |b|
    ensures Entry(a, b, i, j) == Dist(a[..i], b[..j])
  {
    if i != 0 && j != 0 {
      assert Init(a[..i]) == a[..i - 1] && Init(b[..j]) == b[..j - 1];
      assert Last(a[..i]) == a[i - 1] && Last(b[..j]) == b[j - 1];
      EntryIsDist(a, b, i - 1, j);
      EntryIsDist(a, b, i, j - 1);
      EntryIsDist(a, b, i - 1, j - 1);
    }
  }

  /** The first `n` entries of row `i`. */
  ghost predicate IsRow(row: array<nat>, n: nat, a: string, b: string, i: nat)
    reads row
  {
    n <= row.Length && row.Length == |b| + 1 && i <= |a| && forall j | 0 <= j < n :: row[j] == Entry(a, b, i, j)
  }

  /** The inner loop of `_levenshtein`: row `i` from the row before. */
  method NextRow(prev: array<nat>, a: string, b: string, i: nat) returns (curr: array<nat>)
    requires i > 0 && IsRow(prev, |b| + 1, a, b, i - 1) && i <= |a|
    ensures IsRow(curr, |b| + 1, a, b, i)
  {
    curr := new nat[|b| + 1](_ => 0);
    curr[0] := i;
    for j := 1 to |b| + 1
      invariant IsRow(prev, |b| + 1, a, b, i - 1)
      invariant IsRow(curr, j, a, b, i)
    {
      var above, left, corner := prev[j], curr[j - 1], prev[j - 1];
      var entry := Min(Min(above + 1, left + 1), corner + if a[i - 1] == b[j - 1] then 0 else 1);
      assert entry == Entry(a, b, i, j);
      curr[j] := entry;
    }
  }

  /** `_levenshtein`: two rows of the table, each entry of a row made from its three neighbours. */
  method Levenshtein(a: string, b: string) returns (distance: nat)
    ensures distance == Dist(a, b)
  {
    if a == b {
      EqualIsZero(a);
      return 0;
    }
    if a == "" {
      return |b|;
    }
    if b == "" {
      return |a|;
    }
    var prev := new nat[|b| + 1](j => j);
    for i := 1 to |a| + 1
      invariant IsRow(prev, |b| + 1, a, b, i - 1)
    {
      prev := NextRow(prev, a, b, i);
    }
    EntryIsDist(a, b, |a|, |b|);
    assert a[..|a|] == a && b[..|b|] == b;
    distance := prev[|b|];
  }

  /** `paths[k]` is the first of the first `n` paths nearest to `unknown`. */
  ghost predicate IsFirstNearest(paths: seq<string>, n: nat, k: nat, unknown: string) {
    && k < n <= |paths|
    && (forall i | 0 <= i < n :: Dist(unknown, paths[k]) <= Dist(unknown, paths[i]))
    && (forall i | 0 <= i < k :: Dist(unknown, paths[k]) < Dist(unknown, paths[i]))
  }

  ghost predicate AllFurther(paths: seq<string>, n: nat, unknown: string, maxDistance: int) {
    n <= |paths| && forall i | 0 <= i < n :: Dist(unknown, paths[i]) > maxDistance
  }

  /** `suggest_correction` over the registry's paths: the first nearest one if that is within `maxDistance`, and
      none exactly when every path is further away. */
  method SuggestCorrection(paths: seq<string>, unknown: string, maxDistance: int) returns (suggestion: Option<string>)
    ensures suggestion.Some? ==>
      exists k: nat :: IsFirstNearest(paths, |paths|, k, unknown)
        && Dist(unknown, paths[k]) <= maxDistance && suggestion.value == paths[k]
    ensures suggestion.None? <==> AllFurther(paths, |paths|, unknown, maxDistance)
  {
    var best: Option<(nat, string)> := None;
    ghost var at: nat := 0;
    for i := 0 to |paths|
      invariant best.None? ==> AllFurther(paths, i, unknown, maxDistance)
      invariant best.Some? ==>
        && IsFirstNearest(paths, i, at, unknown)
        && best.value == (Dist(unknown, paths[at]), paths[at])
        && Dist(unknown, paths[at]) <= maxDistance
    {
      var d := Levenshtein(unknown, paths[i]);
      if d <= maxDistance && (best.None? || d < best.value.0) {
        best, at := Some((d, paths[i])), i;
      }
    }
    if best.Some? {
      return Some(best.value.1);
    }
    return None;
  }
}
