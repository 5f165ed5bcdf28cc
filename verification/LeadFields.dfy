/** Reading the values after the labels of a lead email. */
module LeadFields {
  import opened Wrappers
  import opened LeadLabels

  /** `blank` is what `strip` takes off; `valid` is what the field validators accept. */
  datatype Config = Config(blank: char -> bool, valid: (string, string) -> bool)

  datatype FieldSpec = FieldSpec(key: string, section: string)

  datatype Status = Matched | Review | NotFound

  datatype Found = Found(value: string, source: string, name: string)

  datatype Field = Field(spec: FieldSpec, found: Option<Found>, status: Status)

  // --- strings ---------------------------------------------------------------------------------------------

  function StripLeft(s: string, p: char -> bool): string {
    if s != "" && p(s[0]) then StripLeft(s[1..], p) else s
  }

  function StripRight(s: string, p: char -> bool): string {
    if s != "" && p(s[|s| - 1]) then StripRight(s[..|s| - 1], p) else s
  }

  function Strip(s: string, p: char -> bool): string {
    StripRight(StripLeft(s, p), p)
  }

  /** The stripping a value goes through: blanks, then commas and semicolons, then blanks again. */
  function Cleaned(c: Config, s: string): string {
    Strip(Strip(Strip(s, c.blank), ch => ch == ',' || ch == ';'), c.blank)
  }

  /** `part` stands in `s` at `at`. */
  predicate StandsAt(part: string, s: string, at: nat) {
    at + |part| <= |s| && s[at..at + |part|] == part
  }

  lemma {:induction false} StripLeftStands(s: string, p: char -> bool) returns (at: nat)
    ensures StandsAt(StripLeft(s, p), s, at)
  {
    at := 0;
    if s != "" && p(s[0]) {
      at := StripLeftStands(s[1..], p);
      at := at + 1;
    }
  }

  lemma {:induction false} StripRightStands(s: string, p: char -> bool)
    ensures StandsAt(StripRight(s, p), s, 0)
  {
    if s != "" && p(s[|s| - 1]) {
      StripRightStands(s[..|s| - 1], p);
    }
  }

  lemma StandsIn(part: string, middle: string, whole: string, i: nat, j: nat)
    requires StandsAt(part, middle, i) && StandsAt(middle, whole, j)
    ensures StandsAt(part, whole, j + i)
  {
    forall k | 0 <= k < |part| ensures whole[j + i + k] == part[k] {
      assert part[k] == middle[i..i + |part|][k] == middle[i + k];
      assert middle[i + k] == whole[j..j + |middle|][i + k];
    }
  }

  lemma StripStands(s: string, p: char -> bool) returns (at: nat)
    ensures StandsAt(Strip(s, p), s, at)
  {
    at := StripLeftStands(s, p);
    StripRightStands(StripLeft(s, p), p);
    StandsIn(Strip(s, p), StripLeft(s, p), s, 0, at);
  }

  lemma CleanedStands(c: Config, s: string) returns (at: nat)
    ensures StandsAt(Cleaned(c, s), s, at)
  {
    var marks := ch => ch == ',' || ch == ';';
    var once := Strip(s, c.blank);
    var twice := Strip(once, marks);
    var i := StripStands(s, c.blank);
    var j := StripStands(once, marks);
    var k := StripStands(twice, c.blank);
    StandsIn(twice, once, s, j, i);
    StandsIn(Strip(twice, c.blank), twice, s, k, i + j);
    at := i + j + k;
  }

  /** `find("\n", from)`. */
  function NextNewline(text: string, from: nat): (r: int)
    requires from <= |text|
    ensures r == -1 || (from <= r < |text| && text[r] == '\n')
    ensures forall i | from <= i < (if r == -1 then |text| else r) :: text[i] != '\n'
    decreases |text| - from
  {
    if from == |text| then -1 else if text[from] == '\n' then from else NextNewline(text, from + 1)
  }

  /** `rfind("\n", 0, before)`. */
  function LastNewline(text: string, before: nat): (r: int)
    requires before <= |text|
    ensures r == -1 || (0 <= r < before && text[r] == '\n')
    ensures forall i | r < i < before :: text[i] != '\n'
  {
    if before == 0 then -1 else if text[before - 1] == '\n' then before - 1 else LastNewline(text, before - 1)
  }

  // --- value spans -----------------------------------------------------------------------------------------

  /** Kept labels stand in the text, one after another. */
  ghost predicate LabelsStand(text: string, kept: seq<Hit>) {
    && (forall k | 0 <= k < |kept| :: kept[k].start < kept[k].end <= |text|)
    && (forall i, j | 0 <= i < j < |kept| :: kept[i].end <= kept[j].start)
  }

  /** Where the value after label `p` ends: at the next label, or at the end of the line if that comes first. */
  function ValueEnd(text: string, kept: seq<Hit>, p: nat): int
    requires p < |kept| && kept[p].end <= |text|
  {
    var nextLabel := if p + 1 < |kept| then kept[p + 1].start else |text|;
    var lineEnd := NextNewline(text, kept[p].end);
    if lineEnd == -1 || nextLabel <= lineEnd then nextLabel else lineEnd
  }

  /** Value spans lie in the text, hold no newline, and overlap neither each other nor any kept label. */
  lemma ValueSpansApart(text: string, kept: seq<Hit>, p: nat, q: nat)
    requires LabelsStand(text, kept) && p < |kept| && q < |kept|
    ensures kept[p].end <= ValueEnd(text, kept, p) <= |text|
    ensures forall i | kept[p].end <= i < ValueEnd(text, kept, p) :: text[i] != '\n'
    ensures p < q ==> ValueEnd(text, kept, p) <= kept[q].start
    ensures q <= p ==> kept[q].end <= kept[p].end
  {
    if p < q && p + 1 < q {
      assert kept[p + 1].end <= kept[q].start;
    }
  }

  function ValueAt(c: Config, text: string, kept: seq<Hit>, p: nat): string
    requires LabelsStand(text, kept) && p < |kept|
  {
    ValueSpansApart(text, kept, p, p);
    Cleaned(c, text[kept[p].end..ValueEnd(text, kept, p)])
  }

  function FoundAt(c: Config, text: string, kept: seq<Hit>, p: nat): Found
    requires LabelsStand(text, kept) && p < |kept|
  {
    ValueSpansApart(text, kept, p, p);
    var lineStart := LastNewline(text, kept[p].start) + 1;
    Found(ValueAt(c, text, kept, p), Strip(text[lineStart..ValueEnd(text, kept, p)], c.blank), kept[p].name)
  }

  type Slot = (string, nat)

  function SlotOf(h: Hit): Slot {
    (h.key, h.index)
  }

  function FoundAll(c: Config, text: string, kept: seq<Hit>): (r: seq<Found>)
    requires LabelsStand(text, kept)
    ensures |r| == |kept|
  {
    seq(|kept|, p requires 0 <= p < |kept| && LabelsStand(text, kept) => FoundAt(c, text, kept, p))
  }

  /** What the first `n` labels give: for a field and index, the first value that is not blank. */
  function FirstFound(kept: seq<Hit>, values: seq<Found>, n: nat): map<Slot, Found>
    requires n <= |kept| == |values|
  {
    if n == 0 then map[]
    else
      var before := FirstFound(kept, values, n - 1);
      var slot := SlotOf(kept[n - 1]);
      if slot in before || values[n - 1].value == "" then before else before[slot := values[n - 1]]
  }

  ghost predicate IsFirst(kept: seq<Hit>, values: seq<Found>, p: nat, slot: Slot)
    requires p < |kept| == |values|
  {
    && SlotOf(kept[p]) == slot && values[p].value != ""
    && (forall q | 0 <= q < p && SlotOf(kept[q]) == slot :: values[q].value == "")
  }

  /** A slot is filled by the first of its labels with a value, and empty when none has one. */
  lemma {:induction false} FilledByFirst(kept: seq<Hit>, values: seq<Found>, n: nat, slot: Slot) returns (p: nat)
    requires n <= |kept| == |values|
    ensures slot in FirstFound(kept, values, n) ==>
      p < n && IsFirst(kept, values, p, slot) && FirstFound(kept, values, n)[slot] == values[p]
    ensures slot !in FirstFound(kept, values, n) ==>
      forall q | 0 <= q < n && SlotOf(kept[q]) == slot :: values[q].value == ""
  {
    p := 0;
    if n > 0 {
      p := FilledByFirst(kept, values, n - 1, slot);
      if slot !in FirstFound(kept, values, n - 1) {
        p := n - 1;
      }
    }
  }

  function FoundIn(c: Config, text: string, kept: seq<Hit>): map<Slot, Found>
    requires LabelsStand(text, kept)
  {
    FirstFound(kept, FoundAll(c, text, kept), |kept|)
  }

  /** A found value is a piece of one line of the text, outside every kept label. */
  lemma FoundValueIsOutsideLabels(c: Config, text: string, kept: seq<Hit>, slot: Slot) returns (at: nat)
    requires LabelsStand(text, kept) && slot in FoundIn(c, text, kept)
    ensures var value := FoundIn(c, text, kept)[slot].value;
      && value != "" && StandsAt(value, text, at) && '\n' !in value
      && (forall k | 0 <= k < |kept| :: at + |value| <= kept[k].start || kept[k].end <= at)
  {
    var p := FilledByFirst(kept, FoundAll(c, text, kept), |kept|, slot);
    at := ValueStands(c, text, kept, p);
    forall k | 0 <= k < |kept|
      ensures at + |ValueAt(c, text, kept, p)| <= kept[k].start || kept[k].end <= at
    {
      ValueSpansApart(text, kept, p, k);
    }
  }

  lemma ValueStands(c: Config, text: string, kept: seq<Hit>, p: nat) returns (at: nat)
    requires LabelsStand(text, kept) && p < |kept|
    ensures var value := ValueAt(c, text, kept, p);
      && StandsAt(value, text, at) && '\n' !in value
      && kept[p].end <= at && at + |value| <= ValueEnd(text, kept, p)
  {
    ValueSpansApart(text, kept, p, p);
    var from, to := kept[p].end, ValueEnd(text, kept, p);
    var value := ValueAt(c, text, kept, p);
    var i := CleanedStands(c, text[from..to]);
    StandsIn(value, text[from..to], text, i, from);
    at := from + i;
    forall k | 0 <= k < |value| ensures value[k] != '\n' {
      assert value[k] == text[at..at + |value|][k] == text[at + k];
    }
  }

  // --- the result ------------------------------------------------------------------------------------------

  /** `field_status`. */
  function FieldStatus(c: Config, key: string, value: string): Status {
    var v := Strip(value, c.blank);
    if v == "" then NotFound else if c.valid(key, v) then Matched else Review
  }

  function Emitted(c: Config, found: map<Slot, Found>, spec: FieldSpec, index: nat): Field {
    if (spec.key, index) in found
    then Field(spec, Some(found[(spec.key, index)]), FieldStatus(c, spec.key, found[(spec.key, index)].value))
    else Field(spec, None, NotFound)
  }

  predicate IsLeast(s: set<nat>, m: nat) {
    m in s && forall x | x in s :: m <= x
  }

  lemma {:induction false} LeastExists(s: set<nat>)
    requires s != {}
    ensures exists m :: IsLeast(s, m)
  {
    var m :| m in s;
    var rest := s - {m};
    assert s == rest + {m};
    if rest == {} {
      assert IsLeast(s, m);
    } else {
      LeastExists(rest);
      var r :| IsLeast(rest, r);
      if r < m {
        assert IsLeast(s, r);
      } else {
        assert IsLeast(s, m);
      }
    }
  }

  function Least(s: set<nat>): (m: nat)
    requires s != {}
    ensures IsLeast(s, m)
  {
    LeastExists(s);
    var m :| m in s && IsLeast(s, m);
    m
  }

  function Ascending(s: set<nat>): seq<nat> {
    if s == {} then [] else [Least(s)] + Ascending(s - {Least(s)})
  }

  lemma {:induction false} AscendingSize(s: set<nat>)
    ensures |Ascending(s)| == |s|
  {
    if s != {} {
      AscendingSize(s - {Least(s)});
    }
  }

  lemma {:induction false} AscendingOk(s: set<nat>)
    ensures forall x :: x in Ascending(s) <==> x in s
    ensures forall i, j | 0 <= i < j < |Ascending(s)| :: Ascending(s)[i] < Ascending(s)[j]
  {
    if s != {} {
      var m := Least(s);
      AscendingOk(s - {m});
      var rest := Ascending(s - {m});
      forall j | 0 <= j < |rest| ensures m < rest[j] {
        assert rest[j] in rest;
      }
    }
  }

  function IndexesOf(found: map<Slot, Found>, key: string): set<nat> {
    set slot | slot in found && slot.0 == key :: slot.1
  }

  /** The index a field shows: its smallest one with a value. */
  function ShownIndex(found: map<Slot, Found>, key: string): nat {
    if IndexesOf(found, key) == {} then 0 else Least(IndexesOf(found, key))
  }

  /** The vehicles that the first `n` labels speak of. */
  function VehicleSlots(kept: seq<Hit>, keys: set<string>, n: nat): set<nat>
    requires n <= |kept|
  {
    set k | 0 <= k < n && kept[k].key in keys :: kept[k].index
  }

  function VehicleSpecs(catalog: seq<FieldSpec>): seq<FieldSpec> {
    if catalog == [] then []
    else
      VehicleSpecs(catalog[..|catalog| - 1])
      + if catalog[|catalog| - 1].section == "VEHICLE" then [catalog[|catalog| - 1]] else []
  }

  function VehicleKeys(catalog: seq<FieldSpec>): set<string> {
    set spec | spec in catalog && spec.section == "VEHICLE" :: spec.key
  }

  function WithStatus(fields: seq<Field>, status: Status): nat {
    if fields == [] then 0
    else WithStatus(fields[..|fields| - 1], status) + if fields[|fields| - 1].status == status then 1 else 0
  }

  lemma OneMoreField(fields: seq<Field>, field: Field)
    ensures forall status ::
      WithStatus(fields + [field], status) == WithStatus(fields, status) + if field.status == status then 1 else 0
  {
    assert (fields + [field])[..|fields|] == fields;
  }

  datatype Preview = Preview(
    fields: seq<Field>, vehicles: seq<seq<Field>>, matched: nat, review: nat, notFound: nat, vehiclesDetected: nat)

  /** What `parse_email_fields` returns from the labels kept. */
  ghost predicate IsPreview(c: Config, text: string, kept: seq<Hit>, catalog: seq<FieldSpec>, r: Preview)
    requires LabelsStand(text, kept)
  {
    var found := FoundIn(c, text, kept);
    var slots := Ascending(VehicleSlots(kept, VehicleKeys(catalog), |kept|));
    var specs := VehicleSpecs(catalog);
    && |r.fields| == |catalog|
    && (forall i | 0 <= i < |catalog| ::
          r.fields[i] == Emitted(c, found, catalog[i], ShownIndex(found, catalog[i].key)))
    && r.matched == WithStatus(r.fields, Matched)
    && r.review == WithStatus(r.fields, Review)
    && r.notFound == WithStatus(r.fields, NotFound)
    && r.vehiclesDetected == |r.vehicles| == |slots|
    && (forall v | 0 <= v < |slots| :: IsVehicle(c, found, specs, slots[v], r.vehicles[v]))
  }

  ghost predicate IsVehicle(c: Config, found: map<Slot, Found>, specs: seq<FieldSpec>, slot: nat, row: seq<Field>) {
    |row| == |specs| && forall i | 0 <= i < |specs| :: row[i] == Emitted(c, found, specs[i], slot)
  }

  /** One turn of the collecting loop: the value after label `p`, and the line it stands on. */
  method ReadValue(c: Config, text: string, kept: seq<Hit>, p: nat) returns (found: Found)
    requires LabelsStand(text, kept) && p < |kept|
    ensures found == FoundAt(c, text, kept, p)
  {
    var h := kept[p];
    ValueSpansApart(text, kept, p, p);
    var valueEnd := if p + 1 < |kept| then kept[p + 1].start else |text|;
    var lineEnd := NextNewline(text, h.end);
    if lineEnd != -1 && lineEnd < valueEnd {
      valueEnd := lineEnd;
    }
    var lineStart := LastNewline(text, h.start) + 1;
    found := Found(Cleaned(c, text[h.end..valueEnd]), Strip(text[lineStart..valueEnd], c.blank), h.name);
  }

  /** Reads the value of every label; the program does this in the turn of the loop below that uses it. */
  method ReadValues(c: Config, text: string, kept: seq<Hit>) returns (values: seq<Found>)
    requires LabelsStand(text, kept)
    ensures values == FoundAll(c, text, kept)
  {
    values := [];
    for p := 0 to |kept|
      invariant |values| == p
      invariant forall k | 0 <= k < p :: values[k] == FoundAt(c, text, kept, k)
    {
      var here := ReadValue(c, text, kept, p);
      values := values + [here];
    }
  }

  /** The collecting loop of `parse_email_fields`. */
  method Collect(kept: seq<Hit>, values: seq<Found>, vehicleKeys: set<string>)
    returns (found: map<Slot, Found>, slots: set<nat>)
    requires |values| == |kept|
    ensures found == FirstFound(kept, values, |kept|)
    ensures slots == VehicleSlots(kept, vehicleKeys, |kept|)
  {
    found, slots := map[], {};
    for p := 0 to |kept|
      invariant found == FirstFound(kept, values, p)
      invariant slots == VehicleSlots(kept, vehicleKeys, p)
    {
      var h := kept[p];
      if h.key in vehicleKeys {
        slots := slots + {h.index};
      }
      OneMoreSlot(kept, vehicleKeys, p);
      if values[p].value != "" && SlotOf(h) !in found {
        found := found[SlotOf(h) := values[p]];
      }
    }
  }

  lemma OneMoreSlot(kept: seq<Hit>, keys: set<string>, p: nat)
    requires p < |kept|
    ensures VehicleSlots(kept, keys, p + 1)
      == VehicleSlots(kept, keys, p) + if kept[p].key in keys then {kept[p].index} else {}
  {
  }

  /** The fields of the catalogue, and how many there are of each status. */
  method EmitAll(c: Config, found: map<Slot, Found>, catalog: seq<FieldSpec>)
    returns (fields: seq<Field>, matched: nat, review: nat, notFound: nat)
    ensures |fields| == |catalog|
    ensures forall i | 0 <= i < |catalog| ::
      fields[i] == Emitted(c, found, catalog[i], ShownIndex(found, catalog[i].key))
    ensures matched == WithStatus(fields, Matched) && review == WithStatus(fields, Review)
    ensures notFound == WithStatus(fields, NotFound) && matched + review + notFound == |catalog|
  {
    fields, matched, review, notFound := [], 0, 0, 0;
    for i := 0 to |catalog|
      invariant |fields| == i
      invariant forall k | 0 <= k < i :: fields[k] == Emitted(c, found, catalog[k], ShownIndex(found, catalog[k].key))
      invariant matched == WithStatus(fields, Matched) && review == WithStatus(fields, Review)
      invariant notFound == WithStatus(fields, NotFound) && matched + review + notFound == i
    {
      var field := Emitted(c, found, catalog[i], ShownIndex(found, catalog[i].key));
      OneMoreField(fields, field);
      fields := fields + [field];
      match field.status {
        case Matched => matched := matched + 1;
        case Review => review := review + 1;
        case NotFound => notFound := notFound + 1;
      }
    }
  }

  /** `parse_email_fields` after the labels are scanned. */
  method Parse(c: Config, text: string, kept: seq<Hit>, catalog: seq<FieldSpec>) returns (r: Preview)
    requires LabelsStand(text, kept)
    ensures IsPreview(c, text, kept, catalog, r)
    ensures r.matched + r.review + r.notFound == |catalog|
    ensures r.vehiclesDetected == |VehicleSlots(kept, VehicleKeys(catalog), |kept|)|
  {
    var values := ReadValues(c, text, kept);
    var found, slots := Collect(kept, values, VehicleKeys(catalog));
    var fields, matched, review, notFound := EmitAll(c, found, catalog);
    var vehicles := Vehicles(c, found, VehicleSpecs(catalog), Ascending(slots));
    r := Preview(fields, vehicles, matched, review, notFound, |vehicles|);
    AscendingSize(slots);
  }

  method Vehicles(c: Config, found: map<Slot, Found>, specs: seq<FieldSpec>, slots: seq<nat>)
    returns (vehicles: seq<seq<Field>>)
    ensures |vehicles| == |slots|
    ensures forall v | 0 <= v < |slots| :: IsVehicle(c, found, specs, slots[v], vehicles[v])
  {
    vehicles := [];
    for v := 0 to |slots|
      invariant |vehicles| == v
      invariant forall k | 0 <= k < v :: IsVehicle(c, found, specs, slots[k], vehicles[k])
    {
      vehicles := vehicles + [seq(|specs|, i requires 0 <= i < |specs| => Emitted(c, found, specs[i], slots[v]))];
    }
  }

  lemma {:induction false} VehicleSpecsOk(catalog: seq<FieldSpec>)
    ensures forall spec :: spec in VehicleSpecs(catalog) <==> spec in catalog && spec.section == "VEHICLE"
  {
    if catalog != [] {
      VehicleSpecsOk(catalog[..|catalog| - 1]);
      assert catalog == catalog[..|catalog| - 1] + [catalog[|catalog| - 1]];
    }
  }

  /** Every value found for a vehicle field shows up in the row of its vehicle, under its field. */
  lemma VehicleValuesShown(c: Config, text: string, kept: seq<Hit>, catalog: seq<FieldSpec>, r: Preview,
                           spec: FieldSpec, index: nat)
    returns (v: nat, i: nat)
    requires LabelsStand(text, kept) && IsPreview(c, text, kept, catalog, r)
    requires spec in catalog && spec.section == "VEHICLE"
    requires (spec.key, index) in FoundIn(c, text, kept)
    ensures v < |r.vehicles| && i < |r.vehicles[v]|
    ensures Ascending(VehicleSlots(kept, VehicleKeys(catalog), |kept|))[v] == index
    ensures r.vehicles[v][i].spec == spec && r.vehicles[v][i].found == Some(FoundIn(c, text, kept)[(spec.key, index)])
  {
    var slots := VehicleSlots(kept, VehicleKeys(catalog), |kept|);
    var p := FilledByFirst(kept, FoundAll(c, text, kept), |kept|, (spec.key, index));
    assert kept[p].key in VehicleKeys(catalog);
    assert index in slots;
    AscendingOk(slots);
    VehicleSpecsOk(catalog);
    v :| 0 <= v < |Ascending(slots)| && Ascending(slots)[v] == index;
    i :| 0 <= i < |VehicleSpecs(catalog)| && VehicleSpecs(catalog)[i] == spec;
    assert IsVehicle(c, FoundIn(c, text, kept), VehicleSpecs(catalog), index, r.vehicles[v]);
  }

  // --- from the hits to the preview ------------------------------------------------------------------------

  /** Hits are non-empty stretches of the text. */
  ghost predicate HitsStand(text: string, hits: seq<Hit>) {
    forall h | h in hits :: h.start < h.end <= |text|
  }

  lemma KeptLabelsStand(text: string, hits: seq<Hit>, kept: seq<Hit>, from: int)
    requires HitsStand(text, hits) && LeftmostLongest(hits, kept, from)
    ensures LabelsStand(text, kept)
  {
    forall k | 0 <= k < |kept| ensures kept[k].start < kept[k].end <= |text| {
      assert kept[k] in hits;
    }
  }

  /** `parse_email_fields`, from the hits of the labels on. */
  method ParseEmailFields(c: Config, text: string, hits: seq<Hit>, catalog: seq<FieldSpec>)
    returns (r: Preview, ghost kept: seq<Hit>)
    requires HitsStand(text, hits)
    ensures LeftmostLongest(hits, kept, -1) && LabelsStand(text, kept)
    ensures IsPreview(c, text, kept, catalog, r)
    ensures r.matched + r.review + r.notFound == |catalog|
    ensures r.vehiclesDetected == |VehicleSlots(kept, VehicleKeys(catalog), |kept|)|
  {
    var labels := ScanLabels(hits);
    KeptLabelsStand(text, hits, labels, -1);
    r := Parse(c, text, labels, catalog);
    kept := labels;
  }
}
