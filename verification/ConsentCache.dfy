/** The consent cache that a bulk send fills with one query: it never changes an answer. */
module ConsentCache {
  import opened Wrappers
  import opened Consent
  import ConsentRule

  type Org = string
  type Key = (Org, string)

  datatype Row = Row(org: Org, number: string, record: Record)

  /** What `normalize_phone` gives; None for a number it cannot read. */
  type Normalize = string -> Option<string>

  /** `normalize_phone(number) or number` */
  function Normal(normalize: Normalize, number: string): string {
    var n := normalize(number);
    if n.Some? && n.value != "" then n.value else number
  }

  /** `normalize_phone(our_line) if our_line else None` */
  function NormalLine(normalize: Normalize, ourLine: Option<string>): Option<string> {
    if ourLine.Some? && ourLine.value != "" then normalize(ourLine.value) else None
  }

  /** `n` is how the rows of this number name it: normalized, or as it was given when that cannot be done. */
  ghost predicate StoredAs(normalize: Normalize, number: string, n: string) {
    if normalize(number) in {None, Some("")} then n == number else normalize(number) == Some(n)
  }

  /** `line` is what the rows know our line as; an empty one, or one that cannot be read, is no line. */
  ghost predicate LineReadAs(normalize: Normalize, ourLine: Option<string>, line: Option<string>) {
    if ourLine in {None, Some("")} then line == None else line == normalize(ourLine.value)
  }

  /** The check asks about the number, and about the line, as the rows name them. */
  lemma AskedAsStored(normalize: Normalize, number: string, ourLine: Option<string>)
    ensures forall n :: n == Normal(normalize, number) <==> StoredAs(normalize, number, n)
    ensures forall line :: line == NormalLine(normalize, ourLine) <==> LineReadAs(normalize, ourLine, line)
  {
  }

  /** Normalizing a number once more changes nothing. */
  ghost predicate Settles(normalize: Normalize) {
    forall number :: Normal(normalize, Normal(normalize, number)) == Normal(normalize, number)
  }

  // --- the table -------------------------------------------------------------------------------------------

  /** What the query for these numbers returns: their rows, each once, oldest first. */
  ghost predicate IsAnswer(answer: seq<Row>, table: set<Row>, org: Org, numbers: set<string>) {
    && (forall row :: row in answer <==> row in table && row.org == org && row.number in numbers)
    && (forall i, j | 0 <= i < j < |answer| :: answer[i] != answer[j])
    && (forall i, j | 0 <= i < j < |answer| :: answer[i].record.createdAt <= answer[j].record.createdAt)
  }

  function OfNumber(answer: seq<Row>, number: string): seq<Record> {
    if answer == [] then []
    else
      var last := answer[|answer| - 1];
      OfNumber(answer[..|answer| - 1], number) + if last.number == number then [last.record] else []
  }

  ghost predicate OldestFirst(records: seq<Record>) {
    forall i, j | 0 <= i < j < |records| :: records[i].createdAt <= records[j].createdAt
  }

  ghost predicate EachOnce(records: seq<Record>) {
    forall i, j | 0 <= i < j < |records| :: records[i] != records[j]
  }

  /** `records` is a history the table may give for this number: its rows, each once, oldest first. */
  ghost predicate IsHistory(records: seq<Record>, table: set<Row>, org: Org, number: string) {
    && (forall r :: r in records <==> Row(org, number, r) in table)
    && EachOnce(records) && OldestFirst(records)
  }

  lemma {:induction false} OfNumberHolds(answer: seq<Row>, number: string, org: Org)
    requires forall row | row in answer :: row.org == org
    ensures forall r :: r in OfNumber(answer, number) <==> Row(org, number, r) in answer
  {
    if answer != [] {
      var rest, last := answer[..|answer| - 1], answer[|answer| - 1];
      OfNumberHolds(rest, number, org);
      assert answer == rest + [last];
      assert last == Row(org, last.number, last.record);
    }
  }

  lemma {:induction false} OfNumberInOrder(answer: seq<Row>, number: string, org: Org)
    requires forall row | row in answer :: row.org == org
    requires forall i, j | 0 <= i < j < |answer| :: answer[i] != answer[j]
    requires forall i, j | 0 <= i < j < |answer| :: answer[i].record.createdAt <= answer[j].record.createdAt
    ensures EachOnce(OfNumber(answer, number)) && OldestFirst(OfNumber(answer, number))
  {
    if answer != [] {
      var rest, last := answer[..|answer| - 1], answer[|answer| - 1];
      OfNumberInOrder(rest, number, org);
      OfNumberHolds(rest, number, org);
      var records := OfNumber(rest, number);
      forall i | 0 <= i < |records| && last.number == number
        ensures records[i] != last.record && records[i].createdAt <= last.record.createdAt
      {
        assert records[i] in records;
        var k :| 0 <= k < |rest| && rest[k] == Row(org, number, records[i]);
        assert answer[k] == rest[k];
      }
    }
  }

  /** One query for many numbers gives each number's history. */
  lemma AnswerHoldsHistories(answer: seq<Row>, table: set<Row>, org: Org, numbers: set<string>, number: string)
    requires IsAnswer(answer, table, org, numbers) && number in numbers
    ensures IsHistory(OfNumber(answer, number), table, org, number)
  {
    OfNumberHolds(answer, number, org);
    OfNumberInOrder(answer, number, org);
  }

  // --- the cache -------------------------------------------------------------------------------------------

  class Cache {
    var entries: map<Key, seq<Record>>

    constructor ()
      ensures entries == map[]
    {
      entries := map[];
    }

    /** Every entry is what the table says. */
    ghost predicate Faithful(table: set<Row>)
      reads this
    {
      forall key | key in entries :: IsHistory(entries[key], table, key.0, key.1)
    }

    /** `prefetch_consent_states`, `answer` being what its query returned. */
    method Prefetch(normalize: Normalize, org: Org, numbers: seq<string>, answer: seq<Row>, ghost table: set<Row>)
      requires IsAnswer(answer, table, org, Wanted(normalize, numbers)) && Faithful(table)
      modifies this
      ensures Faithful(table)
      ensures forall key :: key in entries <==>
        key in old(entries) || (key.0 == org && key.1 in Wanted(normalize, numbers))
      ensures forall key | key in old(entries) && !(key.0 == org && key.1 in Wanted(normalize, numbers)) ::
        entries[key] == old(entries)[key]
    {
      var normalized := Wanted(normalize, numbers);
      if normalized == {} {
        return;
      }
      var grouped := Grouped(normalized, answer);
      var left := grouped.Keys;
      while left != {}
        invariant left <= grouped.Keys
        invariant Faithful(table)
        invariant forall key :: key in entries <==>
          key in old(entries) || (key.0 == org && key.1 in normalized && key.1 !in left)
        invariant forall key | key in old(entries) && !(key.0 == org && key.1 in normalized) ::
          entries[key] == old(entries)[key]
      {
        var number :| number in left;
        AnswerHoldsHistories(answer, table, org, normalized, number);
        entries := entries[(org, number) := grouped[number]];
        left := left - {number};
      }
    }
  }

  /** The numbers to ask for; empty ones are skipped. */
  function Wanted(normalize: Normalize, numbers: seq<string>): set<string> {
    set i | 0 <= i < |numbers| && numbers[i] != "" :: Normal(normalize, numbers[i])
  }

  /** A prefetch asks for the numbers given, as the rows name them, but for empty ones. */
  lemma WantedIff(normalize: Normalize, numbers: seq<string>, n: string)
    ensures n in Wanted(normalize, numbers) <==>
      exists number :: number in numbers && number != "" && StoredAs(normalize, number, n)
  {
    if n in Wanted(normalize, numbers) {
      var i :| 0 <= i < |numbers| && numbers[i] != "" && Normal(normalize, numbers[i]) == n;
      assert numbers[i] in numbers && StoredAs(normalize, numbers[i], n);
    }
    if number :| number in numbers && number != "" && StoredAs(normalize, number, n) {
      var i :| 0 <= i < |numbers| && numbers[i] == number;
      assert Normal(normalize, numbers[i]) == n;
    }
  }

  /** The grouping loop of the prefetch: a number without rows gets an empty history. */
  method Grouped(numbers: set<string>, answer: seq<Row>) returns (grouped: map<string, seq<Record>>)
    requires forall row | row in answer :: row.number in numbers
    ensures grouped.Keys == numbers
    ensures forall n | n in numbers :: grouped[n] == OfNumber(answer, n)
  {
    grouped := map n | n in numbers :: [];
    for i := 0 to |answer|
      invariant grouped.Keys == numbers
      invariant forall n | n in numbers :: grouped[n] == OfNumber(answer[..i], n)
    {
      assert answer[..i + 1][..i] == answer[..i];
      var row := answer[i];
      if row.number !in grouped {
        grouped := grouped[row.number := []];
      }
      grouped := grouped[row.number := grouped[row.number] + [row.record]];
    }
    assert answer[..|answer|] == answer;
  }

  // --- checking --------------------------------------------------------------------------------------------

  /** The verdict is one that a fresh query could lead to; it is the only one where a single bearing row is the newest,
      and the only decision where rows are well formed and those of one bucket and time say the same. */
  ghost predicate IsVerdict(v: Verdict, table: set<Row>, org: Org, number: string,
                            channel: Channel, ourLine: Option<string>, send: SendType)
  {
    && (exists records :: IsHistory(records, table, org, number) && v == VerdictOn(records, channel, ourLine, send))
    && (forall records | IsHistory(records, table, org, number) && Settled(records, channel, ourLine) ::
          && (ConsentRule.Clear(records, channel, ourLine) ==> v == VerdictOn(records, channel, ourLine, send))
          && (ConsentRule.AllWellFormed(records) ==> v.decision == VerdictOn(records, channel, ourLine, send).decision))
  }

  lemma HistoriesAgree(a: seq<Record>, table: set<Row>, org: Org, number: string,
                       channel: Channel, ourLine: Option<string>, send: SendType)
    requires IsHistory(a, table, org, number)
    ensures IsVerdict(VerdictOn(a, channel, ourLine, send), table, org, number, channel, ourLine, send)
  {
    forall b | IsHistory(b, table, org, number) && Settled(b, channel, ourLine)
      ensures ConsentRule.SameAnswer(b, a, channel, ourLine, send)
      ensures ConsentRule.AllWellFormed(b) ==> ConsentRule.AllWellFormed(a)
    {
      forall r ensures r in a <==> r in b {
        assert r in a <==> Row(org, number, r) in table;
      }
      ConsentRule.OrderDoesNotMatter(b, a, channel, ourLine, send);
    }
  }

  /** `load_consent_state`; it normalizes the number again. */
  method LoadConsentState(normalize: Normalize, org: Org, number: string, answer: seq<Row>, ghost table: set<Row>)
    returns (records: seq<Record>)
    requires IsAnswer(answer, table, org, {Normal(normalize, number)})
    ensures IsHistory(records, table, org, Normal(normalize, number))
  {
    records := seq(|answer|, i requires 0 <= i < |answer| => answer[i].record);
    forall r ensures r in records <==> Row(org, Normal(normalize, number), r) in table {
      if Row(org, Normal(normalize, number), r) in table {
        var i :| 0 <= i < |answer| && answer[i] == Row(org, Normal(normalize, number), r);
        assert records[i] == r;
      }
      if r in records {
        var i :| 0 <= i < |records| && records[i] == r;
        assert answer[i] in answer;
      }
    }
    forall i, j | 0 <= i < j < |records| ensures records[i] != records[j] {
      assert answer[i] in answer && answer[j] in answer;
    }
  }

  /** The history of a number, from the cache if it is there; one that is looked up goes in. */
  method CachedState(normalize: Normalize, org: Org, number: string, cache: Cache, answer: seq<Row>,
                     ghost table: set<Row>)
    returns (records: seq<Record>)
    requires Normal(normalize, number) == number && IsAnswer(answer, table, org, {number}) && cache.Faithful(table)
    modifies cache
    ensures IsHistory(records, table, org, number) && cache.Faithful(table)
    ensures cache.entries.Keys == old(cache.entries).Keys + {(org, number)}
    ensures forall key | key in old(cache.entries) :: cache.entries[key] == old(cache.entries)[key]
  {
    var key := (org, number);
    if key in cache.entries {
      return cache.entries[key];
    }
    records := LoadConsentState(normalize, org, number, answer, table);
    cache.entries := cache.entries[key := records];
  }

  /** `check_contactability`: with a cache or without one, the answer is the verdict on what the table holds. */
  method CheckContactability(normalize: Normalize, org: Org, number: string, ourLine: Option<string>, channel: Channel,
                             send: SendType, cache: Cache?, answer: seq<Row>, ghost table: set<Row>)
    returns (v: Verdict)
    requires Settles(normalize)
    requires IsAnswer(answer, table, org, {Normal(normalize, Normal(normalize, number))})
    requires cache != null ==> cache.Faithful(table)
    modifies if cache == null then {} else {cache}
    ensures IsVerdict(v, table, org, Normal(normalize, number), channel, NormalLine(normalize, ourLine), send)
    ensures cache != null ==> cache.Faithful(table)
    ensures cache != null ==> cache.entries.Keys == old(cache.entries).Keys + {(org, Normal(normalize, number))}
    ensures cache != null ==> forall key | key in old(cache.entries) :: cache.entries[key] == old(cache.entries)[key]
  {
    var normalized, line := Normal(normalize, number), NormalLine(normalize, ourLine);
    var records: seq<Record>;
    if cache != null {
      records := CachedState(normalize, org, normalized, cache, answer, table);
    } else {
      records := LoadConsentState(normalize, org, normalized, answer, table);
    }
    HistoriesAgree(records, table, org, normalized, channel, line, send);
    v := Evaluate(records, channel, line, send);
  }
}
