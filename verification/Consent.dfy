/** May a customer be called or texted?  The verdict on one number's consent history, and the rule it follows. */
module Consent {
  import opened Wrappers

  // The columns hold text; the names below are the ones the code compares with.
  datatype Channel = Call | Text | OtherChannel(text: string)
  datatype Scope = Global | Line | OtherScope(text: string)
  datatype Status = DoNotCall | DoNotText | WrongNumber | Allowed | OtherStatus(text: string)
  datatype SendType = Manual | Mass | Automated

  datatype Record = Record(
    id: string,
    channel: Channel,
    scope: Scope,
    line: Option<string>,
    status: Status,
    source: string,
    sourceDetail: Option<string>,
    createdAt: real)

  datatype Decision = Allow | Warn | Block

  /** A verdict names its reason and carries the fields of the row that gave it. */
  datatype Verdict = Verdict(decision: Decision, reason: string, row: Option<Record>)

  const ALLOW := Verdict(Allow, "", None)

  datatype Bucket = Bucket(channel: Channel, scope: Scope, line: Option<string>)

  function BucketOf(r: Record): Bucket {
    Bucket(r.channel, r.scope, r.line)
  }

  // --- the newest row of each bucket -----------------------------------------------------------------------

  function Newest(records: seq<Record>, b: Bucket): Option<Record> {
    if records == [] then None
    else
      var before, last := Newest(records[..|records| - 1], b), records[|records| - 1];
      if BucketOf(last) == b && (before.None? || last.createdAt >= before.value.createdAt) then Some(last) else before
  }

  /** The buckets in the order a dictionary keeps them. */
  function FirstSeen(records: seq<Record>): seq<Bucket> {
    if records == [] then []
    else
      var before, b := FirstSeen(records[..|records| - 1]), BucketOf(records[|records| - 1]);
      if b in before then before else before + [b]
  }

  lemma {:induction false} NewestOk(records: seq<Record>, b: Bucket)
    ensures Newest(records, b).Some? ==>
      var r := Newest(records, b).value;
      r in records && BucketOf(r) == b && forall x | x in records && BucketOf(x) == b :: x.createdAt <= r.createdAt
    ensures Newest(records, b).None? ==> forall x | x in records :: BucketOf(x) != b
  {
    if records != [] {
      NewestOk(records[..|records| - 1], b);
      assert records == records[..|records| - 1] + [records[|records| - 1]];
    }
  }

  lemma {:induction false} FirstSeenOk(records: seq<Record>)
    ensures forall b :: b in FirstSeen(records) <==> Newest(records, b).Some?
    ensures forall i, j | 0 <= i < j < |FirstSeen(records)| :: FirstSeen(records)[i] != FirstSeen(records)[j]
  {
    if records != [] {
      FirstSeenOk(records[..|records| - 1]);
    }
  }

  ghost predicate IsLatest(records: seq<Record>, rows: map<Bucket, Record>) {
    && (forall b :: b in rows <==> Newest(records, b).Some?)
    && (forall b | b in rows :: Newest(records, b) == Some(rows[b]))
  }

  /** `_latest_by_bucket`; `keys` is the dictionary's order. */
  method LatestByBucket(records: seq<Record>) returns (keys: seq<Bucket>, rows: map<Bucket, Record>)
    ensures keys == FirstSeen(records) && IsLatest(records, rows)
  {
    keys, rows := [], map[];
    for i := 0 to |records|
      invariant keys == FirstSeen(records[..i])
      invariant IsLatest(records[..i], rows)
    {
      assert records[..i + 1][..i] == records[..i];
      FirstSeenOk(records[..i]);
      var row := records[i];
      var key := BucketOf(row);
      if key !in rows || row.createdAt >= rows[key].createdAt {
        if key !in rows {
          keys := keys + [key];
        }
        rows := rows[key := row];
      }
    }
    assert records[..|records|] == records;
  }

  // --- the row that governs --------------------------------------------------------------------------------

  /** Python's `max`: the first of the newest rows. */
  function FirstMax(rows: seq<Record>): Option<Record> {
    if rows == [] then None
    else
      var before, last := FirstMax(rows[..|rows| - 1]), rows[|rows| - 1];
      if before.None? || last.createdAt > before.value.createdAt then Some(last) else before
  }

  lemma {:induction false} FirstMaxOk(rows: seq<Record>)
    ensures FirstMax(rows).None? <==> rows == []
    ensures rows != [] ==>
      FirstMax(rows).value in rows && forall x | x in rows :: x.createdAt <= FirstMax(rows).value.createdAt
  {
    if rows != [] {
      FirstMaxOk(rows[..|rows| - 1]);
      assert rows == rows[..|rows| - 1] + [rows[|rows| - 1]];
    }
  }

  function Restrictive(row: Option<Record>): seq<Record> {
    if row.Some? && row.value.status != Allowed then [row.value] else []
  }

  function Candidates(records: seq<Record>, channel: Channel, ourLine: Option<string>): seq<Record> {
    var global := Restrictive(Newest(records, Bucket(channel, Global, None)));
    var exact := Restrictive(Newest(records, Bucket(channel, Line, ourLine)));
    var anyLine := Restrictive(Newest(records, Bucket(channel, Line, None)));
    if ourLine.None? then global else global + exact + anyLine
  }

  predicate IsOtherLine(b: Bucket, channel: Channel, ourLine: Option<string>) {
    b.channel == channel && b.scope.Line? && b.line.Some? && b.line != ourLine
  }

  function OtherLines(records: seq<Record>, keys: seq<Bucket>, channel: Channel, ourLine: Option<string>): seq<Record> {
    if keys == [] then []
    else
      var last := keys[|keys| - 1];
      OtherLines(records, keys[..|keys| - 1], channel, ourLine) +
      if IsOtherLine(last, channel, ourLine) then Restrictive(Newest(records, last)) else []
  }

  function Effective(records: seq<Record>, channel: Channel, ourLine: Option<string>): Option<Record> {
    var candidates := Candidates(records, channel, ourLine);
    if candidates != [] then FirstMax(candidates)
    else FirstMax(OtherLines(records, FirstSeen(records), channel, ourLine))
  }

  /** The loop over the rows without a line; there is at most one. */
  method CollectAnyLine(records: seq<Record>, keys: seq<Bucket>, latest: map<Bucket, Record>, channel: Channel)
    returns (rows: seq<Record>)
    requires keys == FirstSeen(records) && IsLatest(records, latest)
    ensures rows == Restrictive(Newest(records, Bucket(channel, Line, None)))
  {
    FirstSeenOk(records);
    rows := [];
    ghost var found := false;
    ghost var anyLine := Bucket(channel, Line, None);
    for i := 0 to |keys|
      invariant found <==> exists k :: 0 <= k < i && keys[k] == anyLine
      invariant rows == if found then Restrictive(Newest(records, anyLine)) else []
    {
      var b := keys[i];
      found := found || b == anyLine;
      if b.channel == channel && b.scope == Line && b.line.None? && latest[b].status != Allowed {
        rows := rows + [latest[b]];
      }
    }
  }

  method CollectCandidates(records: seq<Record>, keys: seq<Bucket>, latest: map<Bucket, Record>,
                           channel: Channel, ourLine: Option<string>)
    returns (candidates: seq<Record>)
    requires keys == FirstSeen(records) && IsLatest(records, latest)
    ensures candidates == Candidates(records, channel, ourLine)
  {
    FirstSeenOk(records);
    candidates := [];
    var global := Bucket(channel, Global, None);
    if global in latest && latest[global].status != Allowed {
      candidates := candidates + [latest[global]];
    }
    if ourLine.Some? {
      var exact := Bucket(channel, Line, ourLine);
      if exact in latest && latest[exact].status != Allowed {
        candidates := candidates + [latest[exact]];
      }
      var anyLine := CollectAnyLine(records, keys, latest, channel);
      candidates := candidates + anyLine;
    }
  }

  method CollectOtherLines(records: seq<Record>, keys: seq<Bucket>, latest: map<Bucket, Record>,
                           channel: Channel, ourLine: Option<string>)
    returns (others: seq<Record>)
    requires keys == FirstSeen(records) && IsLatest(records, latest)
    ensures others == OtherLines(records, keys, channel, ourLine)
  {
    FirstSeenOk(records);
    others := [];
    for i := 0 to |keys|
      invariant others == OtherLines(records, keys[..i], channel, ourLine)
    {
      assert keys[..i + 1][..i] == keys[..i];
      var b := keys[i];
      if b.channel == channel && b.scope == Line && b.line.Some? && b.line != ourLine && latest[b].status != Allowed {
        others := others + [latest[b]];
      }
    }
    assert keys[..|keys|] == keys;
  }

  /** `_pick_effective`. */
  method PickEffective(records: seq<Record>, channel: Channel, ourLine: Option<string>) returns (row: Option<Record>)
    ensures row == Effective(records, channel, ourLine)
  {
    var keys, latest := LatestByBucket(records);
    var candidates := CollectCandidates(records, keys, latest, channel, ourLine);
    var others := CollectOtherLines(records, keys, latest, channel, ourLine);
    if candidates == [] && others == [] {
      return None;
    }
    if candidates != [] {
      return FirstMax(candidates);
    }
    return FirstMax(others);
  }

  function WrongNumbers(row: Option<Record>): seq<Record> {
    if row.Some? && row.value.status == WrongNumber then [row.value] else []
  }

  function WrongCandidates(records: seq<Record>): seq<Record> {
    WrongNumbers(Newest(records, Bucket(Call, Global, None)))
    + WrongNumbers(Newest(records, Bucket(Text, Global, None)))
  }

  /** `_wrong_number_row`. */
  method WrongNumberRow(records: seq<Record>) returns (row: Option<Record>)
    ensures row == FirstMax(WrongCandidates(records))
  {
    var _, latest := LatestByBucket(records);
    var call, text := Bucket(Call, Global, None), Bucket(Text, Global, None);
    var candidates: seq<Record> := [];
    if call in latest && latest[call].status == WrongNumber {
      candidates := candidates + [latest[call]];
    }
    if text in latest && latest[text].status == WrongNumber {
      candidates := candidates + [latest[text]];
    }
    assert candidates == WrongCandidates(records);
    row := FirstMax(candidates);
  }

  /** What the governing row means for this message. */
  function Answer(row: Record, channel: Channel, ourLine: Option<string>, send: SendType): Verdict {
    if channel == Call && row.status == DoNotCall then Verdict(Block, "do_not_call", Some(row))
    else if channel == Text && row.status == DoNotText then
      if row.scope == Global then Verdict(Block, "do_not_text_global", Some(row))
      else if row.line.None? then Verdict(Block, "do_not_text_legacy_any_line", Some(row))
      else if ourLine.Some? && row.line == ourLine then Verdict(Block, "do_not_text_same_line", Some(row))
      else if ourLine.None? && send in {Mass, Automated} then Verdict(Block, "do_not_text_other_line_bulk", Some(row))
      else Verdict(Warn, "do_not_text_other_line", Some(row))
    else ALLOW
  }

  function VerdictOn(records: seq<Record>, channel: Channel, ourLine: Option<string>, send: SendType): Verdict {
    var wrong, effective := FirstMax(WrongCandidates(records)), Effective(records, channel, ourLine);
    if wrong.Some? then Verdict(Block, "wrong_number", wrong)
    else if effective.Some? then Answer(effective.value, channel, ourLine, send)
    else ALLOW
  }

  /** `evaluate`. */
  method Evaluate(records: seq<Record>, channel: Channel, ourLine: Option<string>, send: SendType) returns (v: Verdict)
    ensures v == VerdictOn(records, channel, ourLine, send)
    ensures Settled(records, channel, ourLine) ==> MeetsRule(records, channel, ourLine, send, v)
  {
    if Settled(records, channel, ourLine) {
      VerdictMeetsRule(records, channel, ourLine, send);
    }
    if records == [] {
      return ALLOW;
    }
    var wrong := WrongNumberRow(records);
    if wrong.Some? {
      return Verdict(Block, "wrong_number", wrong);
    }
    var effective := PickEffective(records, channel, ourLine);
    if effective.None? {
      return ALLOW;
    }
    var row := effective.value;
    if channel == Call && row.status == DoNotCall {
      return Verdict(Block, "do_not_call", Some(row));
    }
    if channel == Text && row.status == DoNotText {
      if row.scope == Global {
        return Verdict(Block, "do_not_text_global", Some(row));
      }
      if row.line.None? {
        return Verdict(Block, "do_not_text_legacy_any_line", Some(row));
      }
      if ourLine.Some? && row.line == ourLine {
        return Verdict(Block, "do_not_text_same_line", Some(row));
      }
      if ourLine.None? && send in {Mass, Automated} {
        return Verdict(Block, "do_not_text_other_line_bulk", Some(row));
      }
      return Verdict(Warn, "do_not_text_other_line", Some(row));
    }
    return ALLOW;
  }

  // --- the rule --------------------------------------------------------------------------------------------

  /** Nothing newer was said about the same bucket. */
  ghost predicate IsNewest(records: seq<Record>, r: Record) {
    r in records && forall x | x in records && BucketOf(x) == BucketOf(r) :: x.createdAt <= r.createdAt
  }

  /** A row is in force when it is the newest of its bucket and restricts something. */
  ghost predicate InForce(records: seq<Record>, r: Record) {
    IsNewest(records, r) && r.status != Allowed
  }

  /** Buckets for the whole channel, and, when our line is known, for that line or for no line in particular. */
  predicate SpeaksIn(b: Bucket, channel: Channel, ourLine: Option<string>) {
    && b.channel == channel
    && ((b.scope.Global? && b.line.None?) || (ourLine.Some? && b.scope.Line? && (b.line.None? || b.line == ourLine)))
  }

  /** The buckets where a wrong number is looked for. */
  predicate WholeNumber(b: Bucket) {
    b.scope.Global? && b.line.None? && (b.channel.Call? || b.channel.Text?)
  }

  predicate Speaks(r: Record, channel: Channel, ourLine: Option<string>) {
    SpeaksIn(BucketOf(r), channel, ourLine)
  }

  predicate SpeaksElsewhere(r: Record, channel: Channel, ourLine: Option<string>) {
    IsOtherLine(BucketOf(r), channel, ourLine)
  }

  predicate SaysWrongNumber(r: Record) {
    r.status == WrongNumber && WholeNumber(BucketOf(r))
  }

  /** Rows that share the newest time of a bucket this message reads say the same.  Rows of different buckets may well
      share their time, as those written in one transaction do. */
  ghost predicate Settled(records: seq<Record>, channel: Channel, ourLine: Option<string>) {
    forall a, b | IsNewest(records, a) && IsNewest(records, b) && BucketOf(a) == BucketOf(b) ::
      && (Speaks(a, channel, ourLine) || SpeaksElsewhere(a, channel, ourLine) ==> a.status == b.status)
      && (WholeNumber(BucketOf(a)) ==> (a.status == WrongNumber <==> b.status == WrongNumber))
  }

  ghost predicate Wrong(records: seq<Record>, r: Record) {
    InForce(records, r) && SaysWrongNumber(r)
  }

  ghost predicate Here(records: seq<Record>, channel: Channel, ourLine: Option<string>, r: Record) {
    InForce(records, r) && Speaks(r, channel, ourLine)
  }

  ghost predicate Elsewhere(records: seq<Record>, channel: Channel, ourLine: Option<string>, r: Record) {
    InForce(records, r) && SpeaksElsewhere(r, channel, ourLine)
  }

  ghost predicate NewestWrong(records: seq<Record>, r: Record) {
    Wrong(records, r) && forall x | Wrong(records, x) :: x.createdAt <= r.createdAt
  }

  /** The newest row that speaks for us; failing any, the newest that speaks for another line. */
  ghost predicate Governs(records: seq<Record>, channel: Channel, ourLine: Option<string>, r: Record) {
    || (&& Here(records, channel, ourLine, r)
        && forall x | Here(records, channel, ourLine, x) :: x.createdAt <= r.createdAt)
    || (&& (forall x :: !Here(records, channel, ourLine, x))
        && Elsewhere(records, channel, ourLine, r)
        && forall x | Elsewhere(records, channel, ourLine, x) :: x.createdAt <= r.createdAt)
  }

  ghost predicate Silent(records: seq<Record>, channel: Channel, ourLine: Option<string>) {
    forall x :: !Here(records, channel, ourLine, x) && !Elsewhere(records, channel, ourLine, x)
  }

  ghost predicate MeetsRule(records: seq<Record>, channel: Channel, ourLine: Option<string>, send: SendType, v: Verdict)
  {
    || (exists w :: NewestWrong(records, w) && v == Verdict(Block, "wrong_number", Some(w)))
    || (&& (forall x :: !Wrong(records, x))
        && (|| (exists g :: Governs(records, channel, ourLine, g) && v == Answer(g, channel, ourLine, send))
            || (Silent(records, channel, ourLine) && v == ALLOW)))
  }

  /** The row found for a bucket is one of its newest. */
  lemma NewestStands(records: seq<Record>, r: Record)
    requires IsNewest(records, r)
    ensures Newest(records, BucketOf(r)).Some?
    ensures var n := Newest(records, BucketOf(r)).value;
      IsNewest(records, n) && BucketOf(n) == BucketOf(r) && n.createdAt == r.createdAt
  {
    NewestOk(records, BucketOf(r));
  }

  lemma FoundIsNewest(records: seq<Record>, b: Bucket)
    ensures Newest(records, b).Some? ==>
      IsNewest(records, Newest(records, b).value) && BucketOf(Newest(records, b).value) == b
  {
    NewestOk(records, b);
  }

  /** The first of the newest candidates is the newest row that speaks for us. */
  lemma NewestHere(records: seq<Record>, channel: Channel, ourLine: Option<string>)
    requires Settled(records, channel, ourLine)
    ensures var row := FirstMax(Candidates(records, channel, ourLine));
      && (row.None? ==> forall r :: !Here(records, channel, ourLine, r))
      && (row.Some? ==> Here(records, channel, ourLine, row.value))
      && (row.Some? ==> forall r | Here(records, channel, ourLine, r) :: r.createdAt <= row.value.createdAt)
  {
    var candidates := Candidates(records, channel, ourLine);
    FirstMaxOk(candidates);
    CandidatesSpeak(records, channel, ourLine);
    forall r | Here(records, channel, ourLine, r)
      ensures candidates != [] && r.createdAt <= FirstMax(candidates).value.createdAt
    {
      NewestStands(records, r);
      assert Newest(records, BucketOf(r)).value in candidates;
    }
  }

  lemma CandidatesSpeak(records: seq<Record>, channel: Channel, ourLine: Option<string>)
    ensures forall r | r in Candidates(records, channel, ourLine) :: Here(records, channel, ourLine, r)
  {
    FoundIsNewest(records, Bucket(channel, Global, None));
    FoundIsNewest(records, Bucket(channel, Line, ourLine));
    FoundIsNewest(records, Bucket(channel, Line, None));
  }

  lemma {:induction false} OtherLinesAreElsewhere(records: seq<Record>, keys: seq<Bucket>,
                                                  channel: Channel, ourLine: Option<string>)
    ensures forall r | r in OtherLines(records, keys, channel, ourLine) :: Elsewhere(records, channel, ourLine, r)
  {
    if keys != [] {
      OtherLinesAreElsewhere(records, keys[..|keys| - 1], channel, ourLine);
      FoundIsNewest(records, keys[|keys| - 1]);
    }
  }

  lemma {:induction false} OtherLinesHold(records: seq<Record>, keys: seq<Bucket>,
                                          channel: Channel, ourLine: Option<string>, b: Bucket)
    requires b in keys && IsOtherLine(b, channel, ourLine)
    requires Newest(records, b).Some? && Newest(records, b).value.status != Allowed
    ensures Newest(records, b).value in OtherLines(records, keys, channel, ourLine)
  {
    if keys[|keys| - 1] != b {
      OtherLinesHold(records, keys[..|keys| - 1], channel, ourLine, b);
    }
  }

  lemma NewestElsewhere(records: seq<Record>, channel: Channel, ourLine: Option<string>)
    requires Settled(records, channel, ourLine)
    ensures var row := FirstMax(OtherLines(records, FirstSeen(records), channel, ourLine));
      && (row.None? ==> forall r :: !Elsewhere(records, channel, ourLine, r))
      && (row.Some? ==> Elsewhere(records, channel, ourLine, row.value))
      && (row.Some? ==> forall r | Elsewhere(records, channel, ourLine, r) :: r.createdAt <= row.value.createdAt)
  {
    var others := OtherLines(records, FirstSeen(records), channel, ourLine);
    FirstMaxOk(others);
    OtherLinesAreElsewhere(records, FirstSeen(records), channel, ourLine);
    FirstSeenOk(records);
    forall r | Elsewhere(records, channel, ourLine, r)
      ensures others != [] && r.createdAt <= FirstMax(others).value.createdAt
    {
      NewestStands(records, r);
      OtherLinesHold(records, FirstSeen(records), channel, ourLine, BucketOf(r));
    }
  }

  lemma WrongCandidatesAreWrong(records: seq<Record>)
    ensures forall r | r in WrongCandidates(records) :: Wrong(records, r)
  {
    FoundIsNewest(records, Bucket(Call, Global, None));
    FoundIsNewest(records, Bucket(Text, Global, None));
  }

  lemma WrongIsCandidate(records: seq<Record>, channel: Channel, ourLine: Option<string>, r: Record)
    requires Settled(records, channel, ourLine) && Wrong(records, r)
    ensures Newest(records, BucketOf(r)).Some? && Newest(records, BucketOf(r)).value in WrongCandidates(records)
    ensures Newest(records, BucketOf(r)).value.createdAt == r.createdAt
  {
    NewestStands(records, r);
  }

  lemma NewestWrongFound(records: seq<Record>, channel: Channel, ourLine: Option<string>)
    requires Settled(records, channel, ourLine)
    ensures var row := FirstMax(WrongCandidates(records));
      && (row.None? ==> forall r :: !Wrong(records, r))
      && (row.Some? ==> NewestWrong(records, row.value))
  {
    var candidates := WrongCandidates(records);
    FirstMaxOk(candidates);
    WrongCandidatesAreWrong(records);
    forall r | Wrong(records, r) ensures candidates != [] && r.createdAt <= FirstMax(candidates).value.createdAt {
      WrongIsCandidate(records, channel, ourLine, r);
    }
  }

  lemma EffectiveGoverns(records: seq<Record>, channel: Channel, ourLine: Option<string>)
    requires Settled(records, channel, ourLine)
    ensures Effective(records, channel, ourLine).None? ==> Silent(records, channel, ourLine)
    ensures Effective(records, channel, ourLine).Some? ==>
      Governs(records, channel, ourLine, Effective(records, channel, ourLine).value)
  {
    NewestHere(records, channel, ourLine);
    NewestElsewhere(records, channel, ourLine);
    FirstMaxOk(Candidates(records, channel, ourLine));
  }

  /** The verdict follows the rule. */
  lemma VerdictMeetsRule(records: seq<Record>, channel: Channel, ourLine: Option<string>, send: SendType)
    requires Settled(records, channel, ourLine)
    ensures MeetsRule(records, channel, ourLine, send, VerdictOn(records, channel, ourLine, send))
  {
    NewestWrongFound(records, channel, ourLine);
    EffectiveGoverns(records, channel, ourLine);
  }
}
