/** User replicas, kept up to date by the auth service's events.  A failed transaction changes nothing. */
module UserSync {
  import opened Wrappers

  type Uuid = string

  /** A JSON value, as far as the handlers look into it. */
  datatype Value = Null | Text(text: string) | Other(n: int)

  type Data = map<string, Value>

  /** `UUID(str(value))`, None where it raises a ValueError. */
  type Parse = Value -> Option<Uuid>

  const USER_FIELDS: seq<string> := ["email", "first_name", "last_name", "phone", "ext", "picture", "is_active"]

  datatype Replica = Replica(organization: Uuid, fields: map<string, Value>)

  type Replicas = map<Uuid, Replica>

  datatype Key = Created | Updated | OrganizationChanged | Deleted | Unknown(name: string)

  datatype Event = Event(key: Key, data: Data)

  function Get(data: Data, key: string): Value {
    if key in data then data[key] else Null
  }

  /** `UUID(data["id"])`, None where it raises: the key is missing, or its value is no text of a UUID. */
  function IdOf(parse: Parse, data: Data): Option<Uuid> {
    if "id" in data && data["id"].Text? then parse(data["id"]) else None
  }

  /** `_organization_id(data.get(key))` */
  function OrganizationOf(parse: Parse, data: Data, key: string): Option<Uuid> {
    parse(Get(data, key))
  }

  const ORGANIZATION := "organization_id"
  const LEFT := "from_organization_id"
  const JOINED := "to_organization_id"

  // --- what a handler does to the table; None where it raises ----------------------------------------------

  function NewFields(data: Data): map<string, Value> {
    map f | f in USER_FIELDS :: Get(data, f)
  }

  function SetFields(fields: map<string, Value>, data: Data): map<string, Value> {
    fields + map f | f in USER_FIELDS && f in data :: data[f]
  }

  function AfterCreated(parse: Parse, rows: Replicas, data: Data): Option<Replicas> {
    var organization, id := OrganizationOf(parse, data, ORGANIZATION), IdOf(parse, data);
    if organization.None? then Some(rows)
    else if id.None? then None
    else if id.value in rows then Some(rows)
    else Some(rows[id.value := Replica(organization.value, NewFields(data))])
  }

  function AfterUpdated(parse: Parse, rows: Replicas, data: Data): Option<Replicas> {
    var id := IdOf(parse, data);
    if id.None? then None
    else if id.value !in rows then AfterCreated(parse, rows, data)
    else Some(rows[id.value := rows[id.value].(fields := SetFields(rows[id.value].fields, data))])
  }

  function AfterMoved(parse: Parse, rows: Replicas, data: Data): Option<Replicas> {
    var left, joined, id := OrganizationOf(parse, data, LEFT), OrganizationOf(parse, data, JOINED), IdOf(parse, data);
    if left.None? || joined.None? then Some(rows)
    else if id.None? then None
    else if id.value in rows && rows[id.value].organization == left.value
    then Some(rows[id.value := rows[id.value].(organization := joined.value)])
    else Some(rows)
  }

  function AfterDeleted(parse: Parse, rows: Replicas, data: Data): Option<Replicas> {
    var id := IdOf(parse, data);
    if id.None? then None else Some(rows - {id.value})
  }

  function Handled(parse: Parse, rows: Replicas, event: Event): Option<Replicas> {
    match event.key
    case Created => AfterCreated(parse, rows, event.data)
    case Updated => AfterUpdated(parse, rows, event.data)
    case OrganizationChanged => AfterMoved(parse, rows, event.data)
    case Deleted => AfterDeleted(parse, rows, event.data)
    case Unknown(_) => Some(rows)
  }

  /** One delivery; `commits` is false when the database refuses the transaction. */
  datatype Delivery = Delivery(event: Event, commits: bool)

  function Dispatched(parse: Parse, rows: Replicas, d: Delivery): Replicas {
    var handled := Handled(parse, rows, d.event);
    if handled.Some? && d.commits then handled.value else rows
  }

  /** The table, and the handlers' sessions on it. */
  class Session {
    var rows: Replicas

    constructor (rows: Replicas)
      ensures this.rows == rows
    {
      this.rows := rows;
    }

    method HandleUserCreated(parse: Parse, data: Data) returns (ok: bool)
      modifies this
      ensures ok == AfterCreated(parse, old(rows), data).Some?
      ensures ok ==> Some(rows) == AfterCreated(parse, old(rows), data)
    {
      var organization := OrganizationOf(parse, data, ORGANIZATION);
      if organization.None? {
        return true;
      }
      var id := IdOf(parse, data);
      if id.None? {
        return false;
      }
      if id.value in rows {
        return true;
      }
      rows := rows[id.value := Replica(organization.value, map f | f in USER_FIELDS :: Get(data, f))];
      return true;
    }

    method HandleUserUpdated(parse: Parse, data: Data) returns (ok: bool)
      modifies this
      ensures ok == AfterUpdated(parse, old(rows), data).Some?
      ensures ok ==> Some(rows) == AfterUpdated(parse, old(rows), data)
    {
      var id := IdOf(parse, data);
      if id.None? {
        return false;
      }
      if id.value !in rows {
        ok := HandleUserCreated(parse, data);
        return;
      }
      var fields := SetEach(USER_FIELDS, rows[id.value].fields, data);
      rows := rows[id.value := rows[id.value].(fields := fields)];
      return true;
    }

    /** The loop over the profile fields. */
    method SetEach(names: seq<string>, before: map<string, Value>, data: Data) returns (now: map<string, Value>)
      ensures now == before + map f | f in names && f in data :: data[f]
    {
      now := before;
      for i := 0 to |names|
        invariant now == before + map f | f in names[..i] && f in data :: data[f]
      {
        assert names[..i + 1] == names[..i] + [names[i]];
        if names[i] in data {
          now := now[names[i] := data[names[i]]];
        }
      }
      assert names[..|names|] == names;
    }

    method HandleUserOrganizationChanged(parse: Parse, data: Data) returns (ok: bool)
      modifies this
      ensures ok == AfterMoved(parse, old(rows), data).Some?
      ensures ok ==> Some(rows) == AfterMoved(parse, old(rows), data)
    {
      var left, joined := OrganizationOf(parse, data, LEFT), OrganizationOf(parse, data, JOINED);
      if left.None? || joined.None? {
        return true;
      }
      var id := IdOf(parse, data);
      if id.None? {
        return false;
      }
      rows := map u | u in rows ::
        if u == id.value && rows[u].organization == left.value then rows[u].(organization := joined.value) else rows[u];
      assert rows == AfterMoved(parse, old(rows), data).value;
      return true;
    }

    method HandleUserDeleted(parse: Parse, data: Data) returns (ok: bool)
      modifies this
      ensures ok == AfterDeleted(parse, old(rows), data).Some?
      ensures ok ==> Some(rows) == AfterDeleted(parse, old(rows), data)
    {
      var id := IdOf(parse, data);
      if id.None? {
        return false;
      }
      if id.value in rows {
        rows := rows - {id.value};
      }
      assert rows == AfterDeleted(parse, old(rows), data).value;
      return true;
    }
  }

  class Table {
    var rows: Replicas

    constructor (rows: Replicas)
      ensures this.rows == rows
    {
      this.rows := rows;
    }

    /** `_dispatch`: the handler runs in a session of its own, and only a commit reaches the table. */
    method Dispatch(parse: Parse, event: Event, commits: bool) returns (ok: bool)
      modifies this
      ensures rows == Dispatched(parse, old(rows), Delivery(event, commits))
      ensures !ok ==> rows == old(rows)
      ensures ok <==> event.key.Unknown? || (Handled(parse, old(rows), event).Some? && commits)
    {
      if event.key.Unknown? {
        return true;
      }
      var session := new Session(rows);
      match event.key {
        case Created => ok := session.HandleUserCreated(parse, event.data);
        case Updated => ok := session.HandleUserUpdated(parse, event.data);
        case OrganizationChanged => ok := session.HandleUserOrganizationChanged(parse, event.data);
        case Deleted => ok := session.HandleUserDeleted(parse, event.data);
      }
      if !ok || !commits {
        return false;
      }
      rows := session.rows;
    }
  }

  // --- runs ------------------------------------------------------------------------------------------------

  function Run(parse: Parse, rows: Replicas, ds: seq<Delivery>): Replicas {
    if ds == [] then rows else Dispatched(parse, Run(parse, rows, ds[..|ds| - 1]), ds[|ds| - 1])
  }

  /** The delivery is an event of this kind about `user` that took effect. */
  predicate Concerns(parse: Parse, user: Uuid, d: Delivery, key: Key) {
    d.commits && d.event.key == key && IdOf(parse, d.event.data) == Some(user)
  }

  datatype Move = Move(left: Uuid, joined: Uuid)

  /** The moves of `user` alone, in the order they came. */
  function Moves(parse: Parse, user: Uuid, ds: seq<Delivery>): seq<Move> {
    if ds == [] then []
    else
      var d := ds[|ds| - 1];
      var left, joined := OrganizationOf(parse, d.event.data, LEFT), OrganizationOf(parse, d.event.data, JOINED);
      Moves(parse, user, ds[..|ds| - 1]) +
      if Concerns(parse, user, d, OrganizationChanged) && left.Some? && joined.Some?
      then [Move(left.value, joined.value)] else []
  }

  /** The updates of `user` alone, in the order they came. */
  function Updates(parse: Parse, user: Uuid, ds: seq<Delivery>): seq<Data> {
    if ds == [] then []
    else
      Updates(parse, user, ds[..|ds| - 1]) +
      if Concerns(parse, user, ds[|ds| - 1], Updated) then [ds[|ds| - 1].event.data] else []
  }

  function Followed(organization: Uuid, moves: seq<Move>): Uuid {
    if moves == [] then organization
    else
      var now := Followed(organization, moves[..|moves| - 1]);
      if now == moves[|moves| - 1].left then moves[|moves| - 1].joined else now
  }

  function Filled(fields: map<string, Value>, updates: seq<Data>): map<string, Value> {
    if updates == [] then fields else SetFields(Filled(fields, updates[..|updates| - 1]), updates[|updates| - 1])
  }

  ghost predicate NeverDeleted(parse: Parse, user: Uuid, ds: seq<Delivery>) {
    forall i | 0 <= i < |ds| :: !Concerns(parse, user, ds[i], Deleted)
  }

  lemma FollowedOneMore(organization: Uuid, moves: seq<Move>, m: Move)
    ensures Followed(organization, moves + [m]) ==
      if Followed(organization, moves) == m.left then m.joined else Followed(organization, moves)
  {
    assert (moves + [m])[..|moves|] == moves;
  }

  lemma FilledOneMore(fields: map<string, Value>, updates: seq<Data>, u: Data)
    ensures Filled(fields, updates + [u]) == SetFields(Filled(fields, updates), u)
  {
    assert (updates + [u])[..|updates|] == updates;
  }

  /** One delivery: the organization follows moves only, the profile follows updates only. */
  lemma OneDelivery(parse: Parse, rows: Replicas, user: Uuid, d: Delivery)
    requires user in rows && !Concerns(parse, user, d, Deleted)
    ensures user in Dispatched(parse, rows, d)
    ensures var r, data := Dispatched(parse, rows, d)[user], d.event.data;
      var left, joined := OrganizationOf(parse, data, LEFT), OrganizationOf(parse, data, JOINED);
      && r.organization ==
           (if Concerns(parse, user, d, OrganizationChanged) && left == Some(rows[user].organization) && joined.Some?
            then joined.value else rows[user].organization)
      && r.fields ==
           (if Concerns(parse, user, d, Updated) then SetFields(rows[user].fields, data) else rows[user].fields)
  {
  }

  lemma MovesOneMore(parse: Parse, user: Uuid, organization: Uuid, rest: seq<Delivery>, d: Delivery)
    ensures var now := Followed(organization, Moves(parse, user, rest));
      var left, joined := OrganizationOf(parse, d.event.data, LEFT), OrganizationOf(parse, d.event.data, JOINED);
      Followed(organization, Moves(parse, user, rest + [d])) ==
        if Concerns(parse, user, d, OrganizationChanged) && left == Some(now) && joined.Some? then joined.value else now
  {
    assert (rest + [d])[..|rest|] == rest;
    var left, joined := OrganizationOf(parse, d.event.data, LEFT), OrganizationOf(parse, d.event.data, JOINED);
    var moves := Moves(parse, user, rest);
    if left.Some? && joined.Some? {
      FollowedOneMore(organization, moves, Move(left.value, joined.value));
    }
    assert moves + [] == moves;
  }

  lemma UpdatesOneMore(parse: Parse, user: Uuid, fields: map<string, Value>, rest: seq<Delivery>, d: Delivery)
    ensures var now := Filled(fields, Updates(parse, user, rest));
      Filled(fields, Updates(parse, user, rest + [d])) ==
        if Concerns(parse, user, d, Updated) then SetFields(now, d.event.data) else now
  {
    assert (rest + [d])[..|rest|] == rest;
    FilledOneMore(fields, Updates(parse, user, rest), d.event.data);
    assert Updates(parse, user, rest) + [] == Updates(parse, user, rest);
  }

  /** Over any deletion-free run, the organization of a replica is the fold of the move events alone and its profile
      the fold of the update events alone. */
  lemma {:induction false} MovesAndUpdatesApart(parse: Parse, rows: Replicas, user: Uuid, ds: seq<Delivery>)
    requires user in rows && NeverDeleted(parse, user, ds)
    ensures user in Run(parse, rows, ds)
    ensures Run(parse, rows, ds)[user] ==
      Replica(Followed(rows[user].organization, Moves(parse, user, ds)),
              Filled(rows[user].fields, Updates(parse, user, ds)))
  {
    if ds != [] {
      var rest, d := ds[..|ds| - 1], ds[|ds| - 1];
      MovesAndUpdatesApart(parse, rows, user, rest);
      OneDelivery(parse, Run(parse, rows, rest), user, d);
      MovesOneMore(parse, user, rows[user].organization, rest, d);
      UpdatesOneMore(parse, user, rows[user].fields, rest, d);
      assert ds == rest + [d];
    }
  }

  /** How moves and updates interleave does not matter. */
  lemma InterleavingDoesNotMatter(parse: Parse, rows: Replicas, user: Uuid, a: seq<Delivery>, b: seq<Delivery>)
    requires user in rows && NeverDeleted(parse, user, a) && NeverDeleted(parse, user, b)
    requires Moves(parse, user, a) == Moves(parse, user, b) && Updates(parse, user, a) == Updates(parse, user, b)
    ensures user in Run(parse, rows, a) && user in Run(parse, rows, b)
    ensures Run(parse, rows, a)[user] == Run(parse, rows, b)[user]
  {
    MovesAndUpdatesApart(parse, rows, user, a);
    MovesAndUpdatesApart(parse, rows, user, b);
  }

  /** Each profile field shows what the last update to mention it said. */
  lemma {:induction false} LastMentionWins(fields: map<string, Value>, updates: seq<Data>, f: string, i: nat)
    requires f in USER_FIELDS && i < |updates| && f in updates[i] && forall j | i < j < |updates| :: f !in updates[j]
    ensures f in Filled(fields, updates) && Filled(fields, updates)[f] == updates[i][f]
    decreases |updates|
  {
    if i < |updates| - 1 {
      LastMentionWins(fields, updates[..|updates| - 1], f, i);
    }
  }

  /** A profile field that no update mentions stays as it was. */
  lemma {:induction false} UnmentionedStays(fields: map<string, Value>, updates: seq<Data>, f: string)
    requires f in fields && forall j | 0 <= j < |updates| :: f !in updates[j]
    ensures f in Filled(fields, updates) && Filled(fields, updates)[f] == fields[f]
  {
    if updates != [] {
      UnmentionedStays(fields, updates[..|updates| - 1], f);
    }
  }

  predicate SameFor(user: Uuid, a: Replicas, b: Replicas) {
    (user in a <==> user in b) && (user in a ==> a[user] == b[user])
  }

  // --- creation and deletion -------------------------------------------------------------------------------

  /** The payload's id is the text of this user's UUID. */
  ghost predicate Names(parse: Parse, data: Data, user: Uuid) {
    "id" in data && data["id"].Text? && parse(data["id"]) == Some(user)
  }

  /** A committed deletion of `user`. */
  ghost predicate Deletes(parse: Parse, user: Uuid, d: Delivery) {
    d.commits && d.event.key == Deleted && Names(parse, d.event.data, user)
  }

  /** A committed creation of `user`, or an update that creates a missing one: both need an organization. */
  ghost predicate CanCreate(parse: Parse, user: Uuid, d: Delivery) {
    && d.commits && (d.event.key == Created || d.event.key == Updated) && Names(parse, d.event.data, user)
    && parse(Get(d.event.data, ORGANIZATION)).Some?
  }

  /** A replica has every profile field, as the payload gives it or null. */
  ghost predicate IsNewReplica(parse: Parse, data: Data, r: Replica) {
    && Some(r.organization) == parse(Get(data, ORGANIZATION))
    && (forall f :: f in r.fields <==> f in USER_FIELDS)
    && (forall f | f in r.fields :: r.fields[f] == Get(data, f))
  }

  /** A deletion leaves no replica of its user and every other as it was. */
  lemma DeletedIsGone(parse: Parse, rows: Replicas, user: Uuid, d: Delivery)
    requires Deletes(parse, user, d)
    ensures var after := Dispatched(parse, rows, d);
      user !in after && forall other | other != user :: SameFor(other, after, rows)
  {
  }

  /** What can create a replica does, from its own payload, when there is none; a creation leaves one that is there
      as it is. */
  lemma CreatedIsThere(parse: Parse, rows: Replicas, user: Uuid, d: Delivery)
    requires CanCreate(parse, user, d)
    ensures var after := Dispatched(parse, rows, d);
      && user in after
      && (user !in rows ==> IsNewReplica(parse, d.event.data, after[user]))
      && (user in rows && d.event.key == Created ==> after[user] == rows[user])
      && forall other | other != user :: SameFor(other, after, rows)
  {
  }

  /** Nothing else makes a user come or go. */
  lemma NothingElseComesOrGoes(parse: Parse, rows: Replicas, user: Uuid, d: Delivery)
    requires !CanCreate(parse, user, d) && !Deletes(parse, user, d)
    ensures user in Dispatched(parse, rows, d) <==> user in rows
  {
  }

  ghost predicate NotDeletedSince(parse: Parse, user: Uuid, ds: seq<Delivery>, n: nat) {
    forall i | n <= i < |ds| :: !Deletes(parse, user, ds[i])
  }

  /** Something that could create `user` came and no deletion after it. */
  ghost predicate CreatedSince(parse: Parse, user: Uuid, ds: seq<Delivery>) {
    exists i: nat | i < |ds| :: CanCreate(parse, user, ds[i]) && NotDeletedSince(parse, user, ds, i)
  }

  lemma OneMoreSince(parse: Parse, user: Uuid, rest: seq<Delivery>, d: Delivery)
    ensures CreatedSince(parse, user, rest + [d])
      <==> CanCreate(parse, user, d) || (CreatedSince(parse, user, rest) && !Deletes(parse, user, d))
    ensures NotDeletedSince(parse, user, rest + [d], 0)
      <==> NotDeletedSince(parse, user, rest, 0) && !Deletes(parse, user, d)
  {
    var ds := rest + [d];
    forall i: nat | i < |rest|
      ensures NotDeletedSince(parse, user, ds, i) <==>
        NotDeletedSince(parse, user, rest, i) && !Deletes(parse, user, d)
    {
      assert ds[|rest|] == d;
      assert forall k | 0 <= k < |rest| :: ds[k] == rest[k];
    }
    assert ds[|rest|] == d;
    if CanCreate(parse, user, d) {
      assert NotDeletedSince(parse, user, ds, |rest|);
    }
  }

  /** Over any run, a user has a replica exactly when something that can create one came after the last deletion, or
      one was there from the start and no deletion came. */
  lemma {:induction false} PresentIff(parse: Parse, rows: Replicas, user: Uuid, ds: seq<Delivery>)
    ensures user in Run(parse, rows, ds) <==>
      CreatedSince(parse, user, ds) || (user in rows && NotDeletedSince(parse, user, ds, 0))
  {
    if ds != [] {
      var rest, d := ds[..|ds| - 1], ds[|ds| - 1];
      var before := Run(parse, rows, rest);
      assert ds == rest + [d];
      PresentIff(parse, rows, user, rest);
      OneMoreSince(parse, user, rest, d);
      if Deletes(parse, user, d) {
        DeletedIsGone(parse, before, user, d);
      } else if CanCreate(parse, user, d) {
        CreatedIsThere(parse, before, user, d);
      } else {
        NothingElseComesOrGoes(parse, before, user, d);
      }
    }
  }

  lemma {:induction false} RunInTwo(parse: Parse, rows: Replicas, a: seq<Delivery>, b: seq<Delivery>)
    ensures Run(parse, rows, a + b) == Run(parse, Run(parse, rows, a), b)
  {
    if b == [] {
      assert a + b == a;
    } else {
      RunInTwo(parse, rows, a, b[..|b| - 1]);
      assert (a + b)[..|a + b| - 1] == a + b[..|b| - 1];
    }
  }

  /** The whole life of a replica: made by a delivery when there was none, it is that delivery's payload with the
      moves and the updates since. */
  lemma ReplicaSinceCreation(parse: Parse, rows: Replicas, user: Uuid, before: seq<Delivery>, d: Delivery,
                             since: seq<Delivery>)
    returns (made: Replica)
    requires user !in Run(parse, rows, before) && CanCreate(parse, user, d) && NeverDeleted(parse, user, since)
    ensures IsNewReplica(parse, d.event.data, made)
    ensures var after := Run(parse, rows, before + [d] + since);
      && user in after
      && after[user] == Replica(Followed(made.organization, Moves(parse, user, since)),
                                Filled(made.fields, Updates(parse, user, since)))
  {
    var created := Run(parse, rows, before + [d]);
    assert (before + [d])[..|before|] == before;
    CreatedIsThere(parse, Run(parse, rows, before), user, d);
    made := created[user];
    RunInTwo(parse, rows, before + [d], since);
    MovesAndUpdatesApart(parse, created, user, since);
  }

  // --- redelivery ------------------------------------------------------------------------------------------

  /** Delivering an event once more, right away, changes nothing. */
  lemma ImmediateRedelivery(parse: Parse, rows: Replicas, event: Event, commits: bool)
    ensures var once := Dispatched(parse, rows, Delivery(event, true));
      Dispatched(parse, once, Delivery(event, commits)) == once
  {
    var once := Dispatched(parse, rows, Delivery(event, true));
    var id := IdOf(parse, event.data);
    if id.Some? && id.value in once && event.key == Updated {
      var fields := once[id.value].fields;
      assert SetFields(fields, event.data) == fields;
      assert once[id.value := once[id.value]] == once;
    }
  }

  /** Delivered later, a move acts again exactly when the user is back in the organization it took them from. */
  lemma LateMoveActsIff(parse: Parse, rows: Replicas, event: Event, user: Uuid)
    requires event.key == OrganizationChanged && IdOf(parse, event.data) == Some(user) && user in rows
    ensures Dispatched(parse, rows, Delivery(event, true)) != rows <==>
      var left, joined := OrganizationOf(parse, event.data, LEFT), OrganizationOf(parse, event.data, JOINED);
      left == Some(rows[user].organization) && joined.Some? && joined != left
  {
    var left, joined := OrganizationOf(parse, event.data, LEFT), OrganizationOf(parse, event.data, JOINED);
    var after := Dispatched(parse, rows, Delivery(event, true));
    assert after[user].organization ==
      if left == Some(rows[user].organization) && joined.Some? then joined.value else rows[user].organization;
    if after[user] == rows[user] {
      assert after == rows;
    }
  }

  /** The deliveries that name this user. */
  function Own(parse: Parse, user: Uuid, ds: seq<Delivery>): seq<Delivery> {
    if ds == [] then []
    else
      var last := ds[|ds| - 1];
      Own(parse, user, ds[..|ds| - 1]) + if IdOf(parse, last.event.data) == Some(user) then [last] else []
  }

  /** An event leaves every other user's replica alone. */
  lemma OthersUntouched(parse: Parse, rows: Replicas, d: Delivery, user: Uuid)
    requires IdOf(parse, d.event.data) != Some(user)
    ensures SameFor(user, Dispatched(parse, rows, d), rows)
  {
  }

  /** And what it does to its own user's replica depends on no other. */
  lemma OwnRowDecides(parse: Parse, a: Replicas, b: Replicas, d: Delivery, user: Uuid)
    requires IdOf(parse, d.event.data) == Some(user) && SameFor(user, a, b)
    ensures SameFor(user, Dispatched(parse, a, d), Dispatched(parse, b, d))
  {
  }

  /** Over any run, with deletions and creations, a user's replica is what the deliveries that name the user make of it:
      all the others could be left out. */
  lemma {:induction false} OnlyOwnEventsMatter(parse: Parse, rows: Replicas, user: Uuid, ds: seq<Delivery>)
    ensures SameFor(user, Run(parse, rows, ds), Run(parse, rows, Own(parse, user, ds)))
  {
    if ds != [] {
      var rest, d := ds[..|ds| - 1], ds[|ds| - 1];
      var all, own := Run(parse, rows, rest), Run(parse, rows, Own(parse, user, rest));
      OnlyOwnEventsMatter(parse, rows, user, rest);
      if IdOf(parse, d.event.data) == Some(user) {
        OwnRowDecides(parse, all, own, d, user);
        assert (Own(parse, user, rest) + [d])[..|Own(parse, user, rest)|] == Own(parse, user, rest);
      } else {
        OthersUntouched(parse, all, d, user);
        assert Own(parse, user, rest) + [] == Own(parse, user, rest);
      }
    }
  }

  /** A creation and an update may come in either order exactly when the update names the same organization and
      every field the creation fills. */
  lemma CreateAndUpdateCommuteIff(parse: Parse, rows: Replicas, user: Uuid, created: Data, updated: Data)
    requires user !in rows && IdOf(parse, created) == Some(user) && IdOf(parse, updated) == Some(user)
    requires OrganizationOf(parse, created, ORGANIZATION).Some? && OrganizationOf(parse, updated, ORGANIZATION).Some?
    ensures var create, update := Delivery(Event(Created, created), true), Delivery(Event(Updated, updated), true);
      Dispatched(parse, Dispatched(parse, rows, create), update)
      == Dispatched(parse, Dispatched(parse, rows, update), create)
      <==> OrganizationOf(parse, created, ORGANIZATION) == OrganizationOf(parse, updated, ORGANIZATION)
           && forall f | f in USER_FIELDS :: f in updated || Get(created, f) == Null
  {
    var create, update := Delivery(Event(Created, created), true), Delivery(Event(Updated, updated), true);
    var inOrder := Dispatched(parse, Dispatched(parse, rows, create), update);
    var swapped := Dispatched(parse, Dispatched(parse, rows, update), create);
    var a, b := inOrder[user], swapped[user];
    assert a == Replica(OrganizationOf(parse, created, ORGANIZATION).value, SetFields(NewFields(created), updated));
    assert b == Replica(OrganizationOf(parse, updated, ORGANIZATION).value, NewFields(updated));
    forall f | f in USER_FIELDS
      ensures a.fields[f] == b.fields[f] <==> f in updated || Get(created, f) == Null
    {
    }
    assert forall f :: (f in a.fields <==> f in USER_FIELDS) && (f in b.fields <==> f in USER_FIELDS);
    if a == b {
      assert inOrder == rows[user := a] && swapped == rows[user := b];
    } else {
      assert inOrder != swapped;
      if forall f | f in USER_FIELDS :: a.fields[f] == b.fields[f] {
        assert a.fields == b.fields;
      }
    }
  }
}
