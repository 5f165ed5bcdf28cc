/** What a preview shows, said from the text and the labels alone: how far a value reaches, what cleaning takes off
    it, and which of several values a field gets. */
module LeadValues {
  import opened Wrappers
  import opened LeadLabels
  import opened LeadFields

  // --- how far a value reaches -----------------------------------------------------------------------------

  /** From the end of label `p` to `until` the line goes on and no label starts; there it ends, or the next does. */
  ghost predicate IsSpan(text: string, kept: seq<Hit>, p: nat, until: nat)
    requires p < |kept|
  {
    && kept[p].end <= until <= |text|
    && (forall n | kept[p].end <= n < until :: text[n] != '\n')
    && (p + 1 < |kept| ==> until <= kept[p + 1].start)
    && (until == |text| || text[until] == '\n' || (p + 1 < |kept| && until == kept[p + 1].start))
  }

  /** `start` begins the line that label `p` stands on. */
  ghost predicate IsLineStart(text: string, kept: seq<Hit>, p: nat, start: nat)
    requires p < |kept|
  {
    && start <= kept[p].start <= |text|
    && (forall n | start <= n < kept[p].start :: text[n] != '\n')
    && (start == 0 || text[start - 1] == '\n')
  }

  /** `part` is what is left of `s` when characters are taken off both ends as long as `p` holds of them. */
  ghost predicate Peels(p: char -> bool, s: string, part: string, at: nat) {
    && StandsAt(part, s, at)
    && (forall k | 0 <= k < at || at + |part| <= k < |s| :: p(s[k]))
    && (part != "" ==> !p(part[0]) && !p(part[|part| - 1]))
  }

  lemma {:induction false} LeftPeels(s: string, p: char -> bool) returns (at: nat)
    ensures at <= |s| && StripLeft(s, p) == s[at..]
    ensures forall k | 0 <= k < at :: p(s[k])
    ensures at < |s| ==> !p(s[at])
  {
    at := 0;
    if s != "" && p(s[0]) {
      at := LeftPeels(s[1..], p);
      assert forall k | 0 < k < at + 1 :: s[k] == s[1..][k - 1];
      at := at + 1;
    }
  }

  lemma {:induction false} RightPeels(s: string, p: char -> bool) returns (n: nat)
    ensures n <= |s| && StripRight(s, p) == s[..n]
    ensures forall k | n <= k < |s| :: p(s[k])
    ensures n > 0 ==> !p(s[n - 1])
  {
    n := |s|;
    if s != "" && p(s[|s| - 1]) {
      n := RightPeels(s[..|s| - 1], p);
    }
  }

  lemma StripPeels(s: string, p: char -> bool) returns (at: nat)
    ensures Peels(p, s, Strip(s, p), at)
  {
    at := LeftPeels(s, p);
    var n := RightPeels(s[at..], p);
    var part := Strip(s, p);
    assert part == s[at..][..n] == s[at..at + n];
    forall k | 0 <= k < at || at + |part| <= k < |s| ensures p(s[k]) {
      if k >= at {
        assert s[k] == s[at..][k - at];
      }
    }
  }

  /** Peeling leaves one thing only. */
  lemma PeelingIsUnique(p: char -> bool, s: string, a: string, i: nat, b: string, j: nat)
    requires Peels(p, s, a, i) && Peels(p, s, b, j)
    ensures a == b
  {
    if a != "" {
      assert a[0] == s[i..i + |a|][0] == s[i] && a[|a| - 1] == s[i..i + |a|][|a| - 1] == s[i + |a| - 1];
    }
    if b != "" {
      assert b[0] == s[j..j + |b|][0] == s[j] && b[|b| - 1] == s[j..j + |b|][|b| - 1] == s[j + |b| - 1];
    }
  }

  ghost predicate IsMark(ch: char) {
    ch == ',' || ch == ';'
  }

  /** Blanks, then commas and semicolons, then blanks are taken off the span. */
  ghost predicate IsCleaned(c: Config, span: string, once: string, twice: string, value: string,
                            i: nat, j: nat, k: nat)
  {
    Peels(c.blank, span, once, i) && Peels(IsMark, once, twice, j) && Peels(c.blank, twice, value, k)
  }

  /** What is read after label `p`: the value is the span after the label, cleaned; its source is the line from its
      start to the end of the span, without blanks around it. */
  lemma ReadingIsExact(c: Config, text: string, kept: seq<Hit>, p: nat)
    returns (until: nat, start: nat, once: string, twice: string, i: nat, j: nat, k: nat, l: nat)
    requires LabelsStand(text, kept) && p < |kept|
    ensures IsSpan(text, kept, p, until) && IsLineStart(text, kept, p, start)
    ensures var r := FoundAt(c, text, kept, p);
      && IsCleaned(c, text[kept[p].end..until], once, twice, r.value, i, j, k)
      && Peels(c.blank, text[start..until], r.source, l)
      && r.name == kept[p].name
  {
    ValueSpansApart(text, kept, p, p);
    until := ValueEnd(text, kept, p);
    start := LastNewline(text, kept[p].start) + 1;
    var span := text[kept[p].end..until];
    var marks := ch => ch == ',' || ch == ';';
    once, twice := Strip(span, c.blank), Strip(Strip(span, c.blank), marks);
    i := StripPeels(span, c.blank);
    j := StripPeels(once, marks);
    k := StripPeels(twice, c.blank);
    l := StripPeels(text[start..until], c.blank);
  }

  lemma OneSpan(text: string, kept: seq<Hit>, p: nat, u: nat, v: nat)
    requires p < |kept| && IsSpan(text, kept, p, u) && IsSpan(text, kept, p, v)
    ensures u == v
  {
  }

  /** Cleaning takes off nothing but blanks, commas and semicolons, and leaves no blank at either end. */
  lemma CleaningTakesLittle(c: Config, span: string, once: string, twice: string, value: string,
                            i: nat, j: nat, k: nat, n: nat)
    requires IsCleaned(c, span, once, twice, value, i, j, k) && n < |span|
    requires !c.blank(span[n]) && !IsMark(span[n])
    ensures i + j + k <= n < i + j + k + |value| && value[n - (i + j + k)] == span[n]
    ensures !c.blank(value[0]) && !c.blank(value[|value| - 1])
  {
    assert once[n - i] == span[i..i + |once|][n - i] == span[n];
    assert twice[n - i - j] == once[j..j + |twice|][n - i - j] == once[n - i];
    assert value[n - i - j - k] == twice[k..k + |value|][n - i - j - k] == twice[n - i - j];
  }

  /** A slot of a label with a value is filled. */
  lemma ValueFills(c: Config, text: string, kept: seq<Hit>, p: nat)
    requires LabelsStand(text, kept) && p < |kept| && FoundAt(c, text, kept, p).value != ""
    ensures SlotOf(kept[p]) in FoundIn(c, text, kept)
  {
    var values := FoundAll(c, text, kept);
    var q := FilledByFirst(kept, values, |kept|, SlotOf(kept[p]));
    assert values[p].value != "";
  }

  /** A span with a character that is no blank, comma or semicolon gives a value, and the character is in it. */
  lemma NothingElseIsLost(c: Config, text: string, kept: seq<Hit>, p: nat, until: nat, n: nat)
    requires LabelsStand(text, kept) && p < |kept| && IsSpan(text, kept, p, until)
    requires kept[p].end <= n < until && !c.blank(text[n]) && !IsMark(text[n])
    ensures text[n] in FoundAt(c, text, kept, p).value
    ensures SlotOf(kept[p]) in FoundIn(c, text, kept)
  {
    var end, start, once, twice, i, j, k, l := ReadingIsExact(c, text, kept, p);
    OneSpan(text, kept, p, until, end);
    var value := FoundAt(c, text, kept, p).value;
    CharacterKept(c, text, kept[p].end, until, once, twice, value, i, j, k, n);
    ValueFills(c, text, kept, p);
  }

  lemma CharacterKept(c: Config, text: string, from: nat, until: nat, once: string, twice: string, value: string,
                      i: nat, j: nat, k: nat, n: nat)
    requires from <= n < until <= |text| && !c.blank(text[n]) && !IsMark(text[n])
    requires IsCleaned(c, text[from..until], once, twice, value, i, j, k)
    ensures text[n] in value
  {
    assert text[from..until][n - from] == text[n];
    CleaningTakesLittle(c, text[from..until], once, twice, value, i, j, k, n - from);
  }

  // --- which value a field shows ---------------------------------------------------------------------------

  /** Label `p` has the key and a value. */
  ghost predicate Speaks(kept: seq<Hit>, values: seq<Found>, p: int, key: string)
    requires |kept| == |values|
  {
    0 <= p < |kept| && kept[p].key == key && values[p].value != ""
  }

  /** What is right about a field that may show the labels `may` allows: nothing when none of them speaks for its
      key, and otherwise what the first of those with the smallest index gives, valid or to be reviewed. */
  ghost predicate FieldOk(c: Config, kept: seq<Hit>, values: seq<Found>, spec: FieldSpec, may: nat -> bool,
                          field: Field, p: nat)
    requires |kept| == |values|
  {
    && field.spec == spec
    && match field.found
       case None =>
         && field.status.NotFound?
         && (forall q: int | Speaks(kept, values, q, spec.key) :: !may(kept[q].index))
       case Some(found) =>
         && Speaks(kept, values, p, spec.key) && may(kept[p].index) && found == values[p]
         && (forall q | Speaks(kept, values, q, spec.key) && may(kept[q].index) ::
               kept[p].index < kept[q].index || (kept[p].index == kept[q].index && p <= q))
         && field.status == if c.valid(spec.key, found.value) then Matched else Review
  }

  /** Stripping what has no blank at its ends leaves it as it is. */
  lemma StrippedAlready(c: Config, value: string)
    requires value != "" && !c.blank(value[0]) && !c.blank(value[|value| - 1])
    ensures Strip(value, c.blank) == value
  {
  }

  /** No value has a blank at an end. */
  ghost predicate NoBlankEnds(c: Config, values: seq<Found>) {
    forall p | 0 <= p < |values| && values[p].value != "" ::
      !c.blank(values[p].value[0]) && !c.blank(values[p].value[|values[p].value| - 1])
  }

  lemma ValuesHaveNoBlankEnds(c: Config, text: string, kept: seq<Hit>)
    requires LabelsStand(text, kept)
    ensures NoBlankEnds(c, FoundAll(c, text, kept))
  {
    forall p | 0 <= p < |kept| && FoundAt(c, text, kept, p).value != ""
      ensures var value := FoundAt(c, text, kept, p).value; !c.blank(value[0]) && !c.blank(value[|value| - 1])
    {
      var until, start, once, twice, i, j, k, l := ReadingIsExact(c, text, kept, p);
    }
  }

  /** A slot is filled exactly when one of its labels speaks. */
  lemma FilledIff(kept: seq<Hit>, values: seq<Found>, key: string, index: nat) returns (p: nat)
    requires |kept| == |values|
    ensures var found := FirstFound(kept, values, |kept|);
      if (key, index) in found
      then Speaks(kept, values, p, key) && kept[p].index == index && found[(key, index)] == values[p]
        && forall q | Speaks(kept, values, q, key) && kept[q].index == index :: p <= q
      else forall q | Speaks(kept, values, q, key) :: kept[q].index != index
  {
    p := FilledByFirst(kept, values, |kept|, (key, index));
    assert forall q | 0 <= q < |kept| :: SlotOf(kept[q]) == (key, index) <==>
      kept[q].key == key && kept[q].index == index;
  }

  /** A vehicle's field shows the first value given for that vehicle. */
  lemma VehicleFieldOk(c: Config, kept: seq<Hit>, values: seq<Found>, spec: FieldSpec, index: nat) returns (p: nat)
    requires |kept| == |values| && NoBlankEnds(c, values)
    ensures FieldOk(c, kept, values, spec, i => i == index,
                    Emitted(c, FirstFound(kept, values, |kept|), spec, index), p)
  {
    p := FilledIff(kept, values, spec.key, index);
    if (spec.key, index) in FirstFound(kept, values, |kept|) {
      StrippedAlready(c, values[p].value);
    }
  }

  /** A field shows the first value given for the smallest vehicle that has one. */
  lemma ShownFieldOk(c: Config, kept: seq<Hit>, values: seq<Found>, spec: FieldSpec) returns (p: nat)
    requires |kept| == |values| && NoBlankEnds(c, values)
    ensures var found := FirstFound(kept, values, |kept|);
      FieldOk(c, kept, values, spec, i => true, Emitted(c, found, spec, ShownIndex(found, spec.key)), p)
  {
    var found := FirstFound(kept, values, |kept|);
    var shown := ShownIndex(found, spec.key);
    p := VehicleFieldOk(c, kept, values, spec, shown);
    forall q | Speaks(kept, values, q, spec.key)
      ensures (spec.key, shown) in found && shown <= kept[q].index
    {
      var first := FilledIff(kept, values, spec.key, kept[q].index);
      assert (spec.key, kept[q].index) in found;
      assert kept[q].index in IndexesOf(found, spec.key);
    }
  }

  ghost function StatusAt(fields: seq<Field>, status: Status): set<int> {
    set i | 0 <= i < |fields| && fields[i].status == status
  }

  lemma OneMoreAt(fields: seq<Field>, field: Field, status: Status)
    ensures StatusAt(fields + [field], status)
      == StatusAt(fields, status) + if field.status == status then {|fields|} else {}
  {
  }

  /** The count of a status is the number of the fields that have it. */
  lemma {:induction false} CountsAreOfFields(fields: seq<Field>, status: Status)
    ensures WithStatus(fields, status) == |StatusAt(fields, status)|
  {
    if fields != [] {
      var rest, field := fields[..|fields| - 1], fields[|fields| - 1];
      CountsAreOfFields(rest, status);
      assert fields == rest + [field];
      OneMoreAt(rest, field, status);
    }
  }

  /** Field `i` of a preview. */
  lemma PreviewFieldOk(c: Config, text: string, kept: seq<Hit>, catalog: seq<FieldSpec>, r: Preview, i: nat)
    returns (p: nat)
    requires LabelsStand(text, kept) && IsPreview(c, text, kept, catalog, r) && i < |catalog|
    ensures |r.fields| == |catalog|
    ensures FieldOk(c, kept, FoundAll(c, text, kept), catalog[i], index => true, r.fields[i], p)
  {
    ValuesHaveNoBlankEnds(c, text, kept);
    p := ShownFieldOk(c, kept, FoundAll(c, text, kept), catalog[i]);
  }

  /** Field `i` of row `v` of a preview. */
  lemma PreviewVehicleOk(c: Config, text: string, kept: seq<Hit>, catalog: seq<FieldSpec>, r: Preview, v: nat, i: nat)
    returns (p: nat, index: nat)
    requires LabelsStand(text, kept) && IsPreview(c, text, kept, catalog, r)
    requires v < |r.vehicles| && i < |VehicleSpecs(catalog)|
    ensures |r.vehicles[v]| == |VehicleSpecs(catalog)|
    ensures exists k :: 0 <= k < |kept| && kept[k].index == index && kept[k].key in VehicleKeys(catalog)
    ensures FieldOk(c, kept, FoundAll(c, text, kept), VehicleSpecs(catalog)[i], x => x == index, r.vehicles[v][i], p)
  {
    var slots := VehicleSlots(kept, VehicleKeys(catalog), |kept|);
    AscendingOk(slots);
    index := Ascending(slots)[v];
    assert index in slots;
    ValuesHaveNoBlankEnds(c, text, kept);
    assert IsVehicle(c, FoundIn(c, text, kept), VehicleSpecs(catalog), index, r.vehicles[v]);
    p := VehicleFieldOk(c, kept, FoundAll(c, text, kept), VehicleSpecs(catalog)[i], index);
  }

  /** Some label of a vehicle field speaks of vehicle `x`. */
  ghost predicate IsNamed(kept: seq<Hit>, catalog: seq<FieldSpec>, x: nat) {
    exists p, spec | 0 <= p < |kept| && spec in catalog ::
      spec.section == "VEHICLE" && kept[p].key == spec.key && kept[p].index == x
  }

  lemma NamedIff(kept: seq<Hit>, catalog: seq<FieldSpec>, x: nat)
    ensures IsNamed(kept, catalog, x) <==> x in VehicleSlots(kept, VehicleKeys(catalog), |kept|)
  {
  }

  /** There is one row for every vehicle named, whether it has a value or not, in ascending order. */
  lemma VehicleRows(c: Config, text: string, kept: seq<Hit>, catalog: seq<FieldSpec>, r: Preview)
    returns (indexes: seq<nat>)
    requires LabelsStand(text, kept) && IsPreview(c, text, kept, catalog, r)
    ensures |indexes| == |r.vehicles| && forall v, w | 0 <= v < w < |indexes| :: indexes[v] < indexes[w]
    ensures forall x :: x in indexes <==> IsNamed(kept, catalog, x)
    ensures forall v | 0 <= v < |indexes| ::
      IsVehicle(c, FoundIn(c, text, kept), VehicleSpecs(catalog), indexes[v], r.vehicles[v])
  {
    AscendingOk(VehicleSlots(kept, VehicleKeys(catalog), |kept|));
    indexes := Ascending(VehicleSlots(kept, VehicleKeys(catalog), |kept|));
    forall x ensures x in indexes <==> IsNamed(kept, catalog, x) {
      NamedIff(kept, catalog, x);
    }
  }

  /** The columns stand in the catalogue at `at`, in its order, and no vehicle field stands elsewhere. */
  ghost predicate StandInOrder(catalog: seq<FieldSpec>, columns: seq<FieldSpec>, at: seq<nat>) {
    && |at| == |columns|
    && (forall i | 0 <= i < |at| :: at[i] < |catalog| && catalog[at[i]] == columns[i])
    && (forall i, j | 0 <= i < j < |at| :: at[i] < at[j])
    && (forall k: nat | k < |catalog| :: k in at <==> catalog[k].section == "VEHICLE")
  }

  lemma OneMoreColumn(rest: seq<FieldSpec>, columns: seq<FieldSpec>, at: seq<nat>, last: FieldSpec)
    requires StandInOrder(rest, columns, at)
    ensures last.section == "VEHICLE" ==> StandInOrder(rest + [last], columns + [last], at + [|rest|])
    ensures last.section != "VEHICLE" ==> StandInOrder(rest + [last], columns, at)
  {
  }

  /** The vehicle columns are the catalogue's vehicle fields, each once and in its order. */
  lemma {:induction false} VehicleColumns(catalog: seq<FieldSpec>) returns (at: seq<nat>)
    ensures StandInOrder(catalog, VehicleSpecs(catalog), at)
  {
    at := [];
    if catalog != [] {
      var rest, last := catalog[..|catalog| - 1], catalog[|catalog| - 1];
      at := VehicleColumns(rest);
      OneMoreColumn(rest, VehicleSpecs(rest), at, last);
      assert rest + [last] == catalog;
      assert VehicleSpecs(rest) + [] == VehicleSpecs(rest);
      if last.section == "VEHICLE" {
        at := at + [|rest|];
      }
    }
  }
}
