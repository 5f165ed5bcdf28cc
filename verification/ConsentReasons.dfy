/** Why a message is blocked or warned about, told from the row a verdict names, and when a text is. */
module ConsentReasons {
  import opened Wrappers
  import opened Consent
  import opened ConsentRule

  /** The row says `status` about texts to a line that is known and not ours. */
  predicate NamesAnotherLine(r: Record, ourLine: Option<string>) {
    r.scope.Line? && r.line.Some? && r.line != ourLine
  }

  /** The reason goes with the row, the line and the kind of message, and only one of them is a mere warning. */
  ghost predicate ReasonFits(v: Verdict, r: Record, channel: Channel, ourLine: Option<string>, send: SendType) {
    && v.reason in {"wrong_number", "do_not_call", "do_not_text_global", "do_not_text_legacy_any_line",
                    "do_not_text_same_line", "do_not_text_other_line_bulk", "do_not_text_other_line"}
    && (v.reason == "wrong_number" <==> r.status.WrongNumber?)
    && (v.reason == "do_not_call" <==> r.status.DoNotCall?)
    && (r.status.DoNotCall? ==> channel.Call? && r.channel.Call?)
    && (r.status.DoNotText? ==> channel.Text? && r.channel.Text?)
    && (v.reason == "do_not_text_global" <==> r.status.DoNotText? && r.scope.Global?)
    && (v.reason == "do_not_text_legacy_any_line" <==> r.status.DoNotText? && r.scope.Line? && r.line.None?)
    && (v.reason == "do_not_text_same_line" <==>
          r.status.DoNotText? && r.scope.Line? && r.line.Some? && r.line == ourLine)
    && (v.reason == "do_not_text_other_line_bulk" <==>
          r.status.DoNotText? && NamesAnotherLine(r, ourLine) && ourLine.None? && !send.Manual?)
    && (v.reason == "do_not_text_other_line" <==>
          r.status.DoNotText? && NamesAnotherLine(r, ourLine) && (ourLine.Some? || send.Manual?))
    && v.decision == if v.reason == "do_not_text_other_line" then Warn else Block
  }

  lemma EffectiveIsInForce(records: seq<Record>, channel: Channel, ourLine: Option<string>)
    ensures Effective(records, channel, ourLine).Some? ==>
      var r := Effective(records, channel, ourLine).value;
      Here(records, channel, ourLine, r) || Elsewhere(records, channel, ourLine, r)
  {
    FirstMaxOk(Candidates(records, channel, ourLine));
    FirstMaxOk(OtherLines(records, FirstSeen(records), channel, ourLine));
    CandidatesSpeak(records, channel, ourLine);
    OtherLinesAreElsewhere(records, FirstSeen(records), channel, ourLine);
  }

  /** What the governing row means, it means with its own reason. */
  lemma AnswerReason(r: Record, channel: Channel, ourLine: Option<string>, send: SendType)
    requires Speaks(r, channel, ourLine) || SpeaksElsewhere(r, channel, ourLine)
    ensures var v := Answer(r, channel, ourLine, send);
      if v.row.None? then v == ALLOW else v.row == Some(r) && ReasonFits(v, r, channel, ourLine, send)
  {
  }

  /** Whatever the history, a verdict that names a row names one in force, and says what that row stands for; one that
      names none allows. */
  lemma VerdictReason(records: seq<Record>, channel: Channel, ourLine: Option<string>, send: SendType)
    ensures var v := VerdictOn(records, channel, ourLine, send);
      if v.row.None? then v.decision == Allow && v.reason == ""
      else InForce(records, v.row.value) && ReasonFits(v, v.row.value, channel, ourLine, send)
  {
    FirstMaxOk(WrongCandidates(records));
    WrongCandidatesAreWrong(records);
    EffectiveIsInForce(records, channel, ourLine);
    var effective := Effective(records, channel, ourLine);
    if effective.Some? {
      AnswerReason(effective.value, channel, ourLine, send);
    }
  }

  // --- when a text is blocked ------------------------------------------------------------------------------

  /** A row that stops a text: a wrong number, or a row about texts for the whole number, for our line, for no line in
      particular when ours is known, or for any line when ours is not and nobody is writing by hand. */
  ghost predicate StopsText(records: seq<Record>, ourLine: Option<string>, send: SendType, r: Record) {
    && InForce(records, r)
    && (|| r.status.WrongNumber?
        || (r.channel.Text?
            && (|| r.scope.Global?
                || (ourLine.Some? && (r.line.None? || r.line == ourLine))
                || (ourLine.None? && r.line.Some? && !send.Manual?))))
  }

  /** A row about texts to another line. */
  ghost predicate WarnsOfText(records: seq<Record>, ourLine: Option<string>, r: Record) {
    InForce(records, r) && r.channel.Text? && NamesAnotherLine(r, ourLine)
  }

  lemma StopsTextIff(records: seq<Record>, ourLine: Option<string>, send: SendType, r: Record)
    requires AllWellFormed(records)
    ensures StopsText(records, ourLine, send, r) <==>
      || Wrong(records, r) || Here(records, Text, ourLine, r)
      || (Elsewhere(records, Text, ourLine, r) && !OnlyWarned(Text, ourLine, send))
    ensures WarnsOfText(records, ourLine, r) <==> Elsewhere(records, Text, ourLine, r)
  {
    if r in records {
      assert WellFormed(r);
    }
  }

  /** Exactly when a text is blocked, warned about and allowed. */
  lemma TextDecisionIff(records: seq<Record>, ourLine: Option<string>, send: SendType)
    requires Settled(records, Text, ourLine) && AllWellFormed(records)
    ensures var stopped, warned :=
        exists r :: StopsText(records, ourLine, send, r), exists r :: WarnsOfText(records, ourLine, r);
      VerdictOn(records, Text, ourLine, send).decision == if stopped then Block else if warned then Warn else Allow
  {
    DecisionIff(records, Text, ourLine, send);
    forall r
      ensures StopsText(records, ourLine, send, r) <==>
        || Wrong(records, r) || Here(records, Text, ourLine, r)
        || (Elsewhere(records, Text, ourLine, r) && !OnlyWarned(Text, ourLine, send))
      ensures WarnsOfText(records, ourLine, r) <==> Elsewhere(records, Text, ourLine, r)
    {
      StopsTextIff(records, ourLine, send, r);
    }
  }
}
