/** What follows from the consent rule: the verdict reads nothing but the rows in force that bear on the message. */
module ConsentRule {
  import opened Wrappers
  import opened Consent

  /** A row in force that can bear on this message. */
  ghost predicate Bears(records: seq<Record>, channel: Channel, ourLine: Option<string>, r: Record) {
    InForce(records, r) && (SaysWrongNumber(r) || Speaks(r, channel, ourLine) || SpeaksElsewhere(r, channel, ourLine))
  }

  /** No two rows that bear on the message share their time, so that one of them is the newest. */
  ghost predicate Clear(records: seq<Record>, channel: Channel, ourLine: Option<string>) {
    forall a, b | Bears(records, channel, ourLine, a) && Bears(records, channel, ourLine, b)
      && a.createdAt == b.createdAt :: a == b
  }

  /** Where one row is the newest, the rule leaves no choice, not even of the row a verdict names. */
  lemma RuleDecides(records: seq<Record>, channel: Channel, ourLine: Option<string>, send: SendType, v: Verdict,
                    w: Verdict)
    requires Clear(records, channel, ourLine)
    requires MeetsRule(records, channel, ourLine, send, v) && MeetsRule(records, channel, ourLine, send, w)
    ensures v == w
  {
    forall a, b | NewestWrong(records, a) && NewestWrong(records, b) ensures a == b {
      assert Bears(records, channel, ourLine, a) && Bears(records, channel, ourLine, b);
    }
    forall a, b | Governs(records, channel, ourLine, a) && Governs(records, channel, ourLine, b) ensures a == b {
      assert Bears(records, channel, ourLine, a) && Bears(records, channel, ourLine, b);
    }
  }

  // --- the decision ----------------------------------------------------------------------------------------

  /** Rows as the callers write them: a status that fits its channel, a wrong number only for the whole number, and
      no line on a row that is not about a line. */
  predicate WellFormed(r: Record) {
    && (r.channel.Call? || r.channel.Text?) && (r.scope.Global? || r.scope.Line?)
    && (r.status == Allowed || r.status == WrongNumber || (r.channel.Call? && r.status == DoNotCall)
        || (r.channel.Text? && r.status == DoNotText))
    && (r.status == WrongNumber ==> r.scope.Global?)
    && (r.scope.Global? ==> r.line.None?)
  }

  ghost predicate AllWellFormed(records: seq<Record>) {
    forall r | r in records :: WellFormed(r)
  }

  ghost predicate AnyWrong(records: seq<Record>) {
    exists r :: Wrong(records, r)
  }

  ghost predicate AnyHere(records: seq<Record>, channel: Channel, ourLine: Option<string>) {
    exists r :: Here(records, channel, ourLine, r)
  }

  ghost predicate AnyElsewhere(records: seq<Record>, channel: Channel, ourLine: Option<string>) {
    exists r :: Elsewhere(records, channel, ourLine, r)
  }

  predicate OnlyWarned(channel: Channel, ourLine: Option<string>, send: SendType) {
    channel.Text? && (ourLine.Some? || send == Manual)
  }

  lemma GoverningDecision(records: seq<Record>, channel: Channel, ourLine: Option<string>, send: SendType, g: Record)
    requires AllWellFormed(records) && !Wrong(records, g) && Governs(records, channel, ourLine, g)
    ensures AnyHere(records, channel, ourLine) || AnyElsewhere(records, channel, ourLine)
    ensures Answer(g, channel, ourLine, send).decision ==
      if AnyHere(records, channel, ourLine) || !OnlyWarned(channel, ourLine, send) then Block else Warn
  {
    assert WellFormed(g);
    if Here(records, channel, ourLine, g) {
      assert AnyHere(records, channel, ourLine);
    } else {
      assert AnyElsewhere(records, channel, ourLine);
    }
  }

  /** Exactly when a message is blocked, allowed or warned about: it is enough to know whether any row in force says
      wrong number, speaks for us, or speaks for another line. */
  lemma DecisionIff(records: seq<Record>, channel: Channel, ourLine: Option<string>, send: SendType)
    requires Settled(records, channel, ourLine) && AllWellFormed(records)
    ensures VerdictOn(records, channel, ourLine, send).decision ==
      if AnyWrong(records) || AnyHere(records, channel, ourLine) then Block
      else if !AnyElsewhere(records, channel, ourLine) then Allow
      else if OnlyWarned(channel, ourLine, send) then Warn
      else Block
  {
    var v := VerdictOn(records, channel, ourLine, send);
    VerdictMeetsRule(records, channel, ourLine, send);
    if w :| NewestWrong(records, w) && v == Verdict(Block, "wrong_number", Some(w)) {
      assert Wrong(records, w);
    } else if g :| Governs(records, channel, ourLine, g) && v == Answer(g, channel, ourLine, send) {
      GoverningDecision(records, channel, ourLine, send, g);
    }
  }

  /** A row that a message sent without a known line does not see. */
  predicate Unseen(r: Record, ourLine: Option<string>) {
    ourLine.None? && r.scope.Line? && r.line.None?
  }

  /** A row that stops every call. */
  ghost predicate StopsCalls(records: seq<Record>, ourLine: Option<string>, r: Record) {
    InForce(records, r) && (r.status == WrongNumber || (r.channel.Call? && !Unseen(r, ourLine)))
  }

  lemma StopsCallsIff(records: seq<Record>, ourLine: Option<string>, r: Record)
    requires AllWellFormed(records)
    ensures StopsCalls(records, ourLine, r) <==>
      Wrong(records, r) || Here(records, Call, ourLine, r) || Elsewhere(records, Call, ourLine, r)
  {
    if r in records {
      assert WellFormed(r);
    }
  }

  /** Exactly when a call is blocked, which no line exempts from: a wrong number on either channel, or any row about
      calls in force.  A call is never merely warned about. */
  lemma CallBlockedIff(records: seq<Record>, ourLine: Option<string>, send: SendType)
    requires Settled(records, Call, ourLine) && AllWellFormed(records)
    ensures VerdictOn(records, Call, ourLine, send).decision != Warn
    ensures VerdictOn(records, Call, ourLine, send).decision == Block <==> exists r :: StopsCalls(records, ourLine, r)
  {
    DecisionIff(records, Call, ourLine, send);
    forall r
      ensures StopsCalls(records, ourLine, r) <==>
        Wrong(records, r) || Here(records, Call, ourLine, r) || Elsewhere(records, Call, ourLine, r)
    {
      StopsCallsIff(records, ourLine, r);
    }
  }

  // --- what does not matter --------------------------------------------------------------------------------

  ghost predicate SameBearing(a: seq<Record>, b: seq<Record>, channel: Channel, ourLine: Option<string>) {
    forall r :: Bears(a, channel, ourLine, r) <==> Bears(b, channel, ourLine, r)
  }

  lemma BearingAgrees(a: seq<Record>, b: seq<Record>, channel: Channel, ourLine: Option<string>, r: Record)
    requires SameBearing(a, b, channel, ourLine)
    ensures Wrong(a, r) <==> Wrong(b, r)
    ensures Here(a, channel, ourLine, r) <==> Here(b, channel, ourLine, r)
    ensures Elsewhere(a, channel, ourLine, r) <==> Elsewhere(b, channel, ourLine, r)
  {
    assert Bears(a, channel, ourLine, r) <==> Bears(b, channel, ourLine, r);
  }

  lemma AllBearingAgrees(a: seq<Record>, b: seq<Record>, channel: Channel, ourLine: Option<string>)
    requires SameBearing(a, b, channel, ourLine)
    ensures forall r :: Wrong(a, r) <==> Wrong(b, r)
    ensures forall r :: Here(a, channel, ourLine, r) <==> Here(b, channel, ourLine, r)
    ensures forall r :: Elsewhere(a, channel, ourLine, r) <==> Elsewhere(b, channel, ourLine, r)
  {
    forall r
      ensures Wrong(a, r) <==> Wrong(b, r)
      ensures Here(a, channel, ourLine, r) <==> Here(b, channel, ourLine, r)
      ensures Elsewhere(a, channel, ourLine, r) <==> Elsewhere(b, channel, ourLine, r)
    {
      BearingAgrees(a, b, channel, ourLine, r);
    }
  }

  lemma RuleCarriesOver(a: seq<Record>, b: seq<Record>, channel: Channel, ourLine: Option<string>, send: SendType,
                        v: Verdict)
    requires MeetsRule(a, channel, ourLine, send, v)
    requires forall r :: Wrong(a, r) <==> Wrong(b, r)
    requires forall r :: Here(a, channel, ourLine, r) <==> Here(b, channel, ourLine, r)
    requires forall r :: Elsewhere(a, channel, ourLine, r) <==> Elsewhere(b, channel, ourLine, r)
    ensures MeetsRule(b, channel, ourLine, send, v)
  {
    if w :| NewestWrong(a, w) && v == Verdict(Block, "wrong_number", Some(w)) {
      assert NewestWrong(b, w);
    } else if g :| Governs(a, channel, ourLine, g) && v == Answer(g, channel, ourLine, send) {
      assert Governs(b, channel, ourLine, g);
    }
  }

  /** The same decision where all rows are well formed, and the same verdict, down to the row it names, where one
      bearing row is the newest. */
  ghost predicate SameAnswer(a: seq<Record>, b: seq<Record>, channel: Channel, ourLine: Option<string>, send: SendType)
  {
    var v, w := VerdictOn(a, channel, ourLine, send), VerdictOn(b, channel, ourLine, send);
    && (AllWellFormed(a) && AllWellFormed(b) ==> v.decision == w.decision)
    && (Clear(a, channel, ourLine) ==> v == w)
  }

  lemma SameVerdict(a: seq<Record>, b: seq<Record>, channel: Channel, ourLine: Option<string>, send: SendType)
    requires Settled(a, channel, ourLine) && Settled(b, channel, ourLine) && SameBearing(a, b, channel, ourLine)
    requires Clear(a, channel, ourLine)
    ensures VerdictOn(a, channel, ourLine, send) == VerdictOn(b, channel, ourLine, send)
  {
    var v := VerdictOn(a, channel, ourLine, send);
    VerdictMeetsRule(a, channel, ourLine, send);
    VerdictMeetsRule(b, channel, ourLine, send);
    AllBearingAgrees(a, b, channel, ourLine);
    RuleCarriesOver(a, b, channel, ourLine, send, v);
    assert Clear(b, channel, ourLine);
    RuleDecides(b, channel, ourLine, send, v, VerdictOn(b, channel, ourLine, send));
  }

  /** Histories with the same bearing rows get the same answer. */
  lemma SameBearingSameAnswer(a: seq<Record>, b: seq<Record>, channel: Channel, ourLine: Option<string>, send: SendType)
    requires Settled(a, channel, ourLine) && Settled(b, channel, ourLine) && SameBearing(a, b, channel, ourLine)
    ensures SameAnswer(a, b, channel, ourLine, send)
  {
    if AllWellFormed(a) && AllWellFormed(b) {
      AllBearingAgrees(a, b, channel, ourLine);
      DecisionIff(a, channel, ourLine, send);
      DecisionIff(b, channel, ourLine, send);
    }
    if Clear(a, channel, ourLine) {
      SameVerdict(a, b, channel, ourLine, send);
    }
  }

  lemma SameRowsSameNewest(a: seq<Record>, b: seq<Record>)
    requires forall r :: r in a <==> r in b
    ensures forall r :: IsNewest(a, r) <==> IsNewest(b, r)
  {
  }

  /** The order of the history does not matter. */
  lemma OrderDoesNotMatter(a: seq<Record>, b: seq<Record>, channel: Channel, ourLine: Option<string>, send: SendType)
    requires Settled(a, channel, ourLine) && forall r :: r in a <==> r in b
    ensures SameAnswer(a, b, channel, ourLine, send)
  {
    SameRowsSameNewest(a, b);
    SameBearingSameAnswer(a, b, channel, ourLine, send);
  }

  function Without(records: seq<Record>, i: nat): seq<Record>
    requires i < |records|
  {
    records[..i] + records[i + 1..]
  }

  lemma WithoutKeepsTheRest(records: seq<Record>, i: nat)
    requires i < |records|
    ensures forall r | r in Without(records, i) :: r in records
    ensures forall r | r in records && r != records[i] :: r in Without(records, i)
  {
    var rest := Without(records, i);
    forall r | r in records && r != records[i] ensures r in rest {
      var k :| 0 <= k < |records| && records[k] == r;
      assert r == rest[if k < i then k else k - 1];
    }
  }

  /** A row about whose bucket something newer was said can be dropped. */
  lemma SupersededRowsDoNotMatter(
    records: seq<Record>, i: nat, j: nat, channel: Channel, ourLine: Option<string>, send: SendType)
    requires i < |records| && j < |records| && Settled(records, channel, ourLine)
    requires BucketOf(records[i]) == BucketOf(records[j]) && records[i].createdAt < records[j].createdAt
    ensures SameAnswer(records, Without(records, i), channel, ourLine, send)
  {
    var rest := Without(records, i);
    WithoutKeepsTheRest(records, i);
    forall r ensures IsNewest(records, r) <==> IsNewest(rest, r) {
      assert records[j] in rest;
    }
    SameBearingSameAnswer(records, rest, channel, ourLine, send);
  }

  /** A row for no line in particular counts only when our line is known. */
  lemma LegacyRowsNeedOurLine(records: seq<Record>, i: nat, channel: Channel, send: SendType)
    requires i < |records| && records[i].scope.Line? && records[i].line.None? && Settled(records, channel, None)
    ensures SameAnswer(records, Without(records, i), channel, None, send)
  {
    var rest := Without(records, i);
    WithoutKeepsTheRest(records, i);
    forall r | BucketOf(r) != BucketOf(records[i]) ensures IsNewest(records, r) <==> IsNewest(rest, r) {
    }
    SameBearingSameAnswer(records, rest, channel, None, send);
  }

  // --- ties ------------------------------------------------------------------------------------------------

  /** Of two rows of one bucket with the same time only the later in the list is ever looked at. */
  lemma LaterOfTwo(a: Record, b: Record, channel: Channel, ourLine: Option<string>, send: SendType)
    requires BucketOf(a) == BucketOf(b) && a.createdAt == b.createdAt
    ensures VerdictOn([a, b], channel, ourLine, send) == VerdictOn([b], channel, ourLine, send)
  {
    forall x ensures Newest([a, b], x) == Newest([b], x) {
      NewestOfTwo(a, b, x);
    }
    FirstSeenOfTwo(a, b);
    SameFoundSameVerdict([a, b], [b], channel, ourLine, send);
  }

  lemma SameFoundSameVerdict(a: seq<Record>, b: seq<Record>, channel: Channel, ourLine: Option<string>, send: SendType)
    requires FirstSeen(a) == FirstSeen(b) && forall x :: Newest(a, x) == Newest(b, x)
    ensures VerdictOn(a, channel, ourLine, send) == VerdictOn(b, channel, ourLine, send)
  {
    SameOtherLines(a, b, FirstSeen(b), channel, ourLine);
    SameCandidates(a, b, channel, ourLine);
    assert Effective(a, channel, ourLine) == Effective(b, channel, ourLine);
  }

  lemma SameCandidates(a: seq<Record>, b: seq<Record>, channel: Channel, ourLine: Option<string>)
    requires forall x :: Newest(a, x) == Newest(b, x)
    ensures WrongCandidates(a) == WrongCandidates(b)
    ensures Candidates(a, channel, ourLine) == Candidates(b, channel, ourLine)
  {
    var global, exact := Bucket(channel, Global, None), Bucket(channel, Line, ourLine);
    assert Newest(a, global) == Newest(b, global) && Newest(a, exact) == Newest(b, exact);
    assert Newest(a, Bucket(channel, Line, None)) == Newest(b, Bucket(channel, Line, None));
    assert Newest(a, Bucket(Call, Global, None)) == Newest(b, Bucket(Call, Global, None));
    assert Newest(a, Bucket(Text, Global, None)) == Newest(b, Bucket(Text, Global, None));
  }

  lemma NewestOfTwo(a: Record, b: Record, x: Bucket)
    requires BucketOf(a) == BucketOf(b) && a.createdAt == b.createdAt
    ensures Newest([a, b], x) == Newest([b], x)
  {
    assert [a, b][..1] == [a] && [a][..0] == [] && [b][..0] == [];
    assert Newest([a], x) == if BucketOf(a) == x then Some(a) else None;
  }

  lemma FirstSeenOfTwo(a: Record, b: Record)
    requires BucketOf(a) == BucketOf(b)
    ensures FirstSeen([a, b]) == FirstSeen([b])
  {
    assert [a, b][..1] == [a] && [a][..0] == [] && [b][..0] == [];
    assert FirstSeen([a]) == [BucketOf(a)];
  }

  lemma {:induction false} SameOtherLines(a: seq<Record>, b: seq<Record>, keys: seq<Bucket>,
                                          channel: Channel, ourLine: Option<string>)
    requires forall x :: Newest(a, x) == Newest(b, x)
    ensures OtherLines(a, keys, channel, ourLine) == OtherLines(b, keys, channel, ourLine)
  {
    if keys != [] {
      SameOtherLines(a, b, keys[..|keys| - 1], channel, ourLine);
    }
  }

  /** One row alone. */
  lemma DecisionAlone(r: Record, channel: Channel, ourLine: Option<string>, send: SendType)
    requires WellFormed(r)
    ensures VerdictOn([r], channel, ourLine, send).decision ==
      if r.status == WrongNumber || (r.status != Allowed && Speaks(r, channel, ourLine)) then Block
      else if r.status == Allowed || !SpeaksElsewhere(r, channel, ourLine) then Allow
      else if OnlyWarned(channel, ourLine, send) then Warn
      else Block
  {
    var alone := [r];
    assert forall x :: IsNewest(alone, x) <==> x == r by {
      assert alone[0] == r;
    }
    DecisionIff(alone, channel, ourLine, send);
    assert Wrong(alone, r) <==> r.status == WrongNumber;
    assert Here(alone, channel, ourLine, r) <==> r.status != Allowed && Speaks(r, channel, ourLine);
    assert Elsewhere(alone, channel, ourLine, r) <==> r.status != Allowed && SpeaksElsewhere(r, channel, ourLine);
  }

  /** A message whose decision tells two statuses of one bucket apart. */
  function TellingChannel(a: Record, b: Record): Channel {
    if a.status != WrongNumber && b.status != WrongNumber then a.channel
    else if a.channel.Call? then Text else Call
  }

  function TellingLine(r: Record): Option<string> {
    if r.line.Some? then r.line else Some("")
  }

  ghost predicate OrderIsIdle(a: Record, b: Record, channel: Channel, ourLine: Option<string>, send: SendType) {
    VerdictOn([a, b], channel, ourLine, send).decision == VerdictOn([b, a], channel, ourLine, send).decision
  }

  /** Two rows of one bucket with the same time may be listed either way, whatever the message, if and only if they
      say the same. */
  lemma TiesAreIdleIff(a: Record, b: Record)
    requires WellFormed(a) && WellFormed(b) && BucketOf(a) == BucketOf(b) && a.createdAt == b.createdAt
    ensures (forall channel, ourLine, send :: OrderIsIdle(a, b, channel, ourLine, send)) <==> a.status == b.status
  {
    forall channel, ourLine, send
      ensures OrderIsIdle(a, b, channel, ourLine, send) <==>
        VerdictOn([b], channel, ourLine, send).decision == VerdictOn([a], channel, ourLine, send).decision
    {
      LaterOfTwo(a, b, channel, ourLine, send);
      LaterOfTwo(b, a, channel, ourLine, send);
    }
    if a.status == b.status {
      forall channel, ourLine, send ensures OrderIsIdle(a, b, channel, ourLine, send) {
        DecisionAlone(a, channel, ourLine, send);
        DecisionAlone(b, channel, ourLine, send);
      }
    } else {
      var channel, ourLine := TellingChannel(a, b), TellingLine(a);
      DecisionAlone(a, channel, ourLine, Manual);
      DecisionAlone(b, channel, ourLine, Manual);
      assert !OrderIsIdle(a, b, channel, ourLine, Manual);
    }
  }

  /** For one: a stop and an allowance of the same moment. */
  lemma TiesGoToTheLaterInTheList() returns (stop: Record, allow: Record)
    ensures stop.createdAt == allow.createdAt && BucketOf(stop) == BucketOf(allow)
    ensures VerdictOn([stop, allow], Call, None, Manual) == ALLOW
    ensures VerdictOn([allow, stop], Call, None, Manual) == Verdict(Block, "do_not_call", Some(stop))
  {
    stop := Record("1", Call, Global, None, DoNotCall, "agent", None, 1.0);
    allow := stop.(id := "2", status := Allowed);
    LaterOfTwo(stop, allow, Call, None, Manual);
    LaterOfTwo(allow, stop, Call, None, Manual);
    CallRowAlone(stop);
    CallRowAlone(allow);
  }

  lemma CallRowAlone(r: Record)
    requires BucketOf(r) == Bucket(Call, Global, None) && (r.status == Allowed || r.status == DoNotCall)
    ensures VerdictOn([r], Call, None, Manual) ==
      if r.status == Allowed then ALLOW else Verdict(Block, "do_not_call", Some(r))
  {
    var alone := [r];
    assert forall x :: IsNewest(alone, x) <==> x == r by {
      assert alone[0] == r;
    }
    VerdictMeetsRule(alone, Call, None, Manual);
    if r.status == DoNotCall {
      assert Here(alone, Call, None, r);
    }
  }
}
