/** The Supabase tables the pages read and write, as one in-memory value, and
    the handful of row operations the pages issue against it. A call that the
    real store could fail takes the failure as a parameter (`fault`), so every
    error path of the pages can be followed. */
module Store {
  import opened Common

  type UserId = string

  /** A row of `profiles`; `id` is the authentication subject. */
  datatype Profile = Profile(
    id: UserId,
    fullName: Option<string>,
    email: Option<string>,
    phone: Option<string>,
    birthDate: Option<string>,
    role: Option<string>,
    marketingOptIn: Option<bool>)

  /** The columns an insert into `loyalty_cards` supplies; a column it leaves
      out reads back as null (`None`). `points` is written only by sign-up. */
  datatype Columns = Columns(
    currentStamps: Option<int>,
    totalStamps: Option<int>,
    totalVisits: Option<int>,
    points: Option<int>)

  /** A row of `loyalty_cards`. */
  datatype Card = Card(id: nat, userId: UserId, cols: Columns, updatedAt: Option<string>)

  /** A row of `stamp_events`. */
  datatype StampEvent = StampEvent(userId: UserId, staffId: UserId, amount: int)

  /** A row of `promotions`. */
  datatype Promotion = Promotion(title: string, body: string, price: Option<string>, imageUrl: Option<string>)

  /** The store. `cards` is keyed by `user_id`, which the table keeps unique;
      `promotions` is newest first, the order `created_at desc` gives. */
  datatype Db = Db(
    profiles: map<UserId, Profile>,
    cards: map<UserId, Card>,
    events: seq<StampEvent>,
    promotions: seq<Promotion>,
    nextCardId: nat)

  /** The Postgres error code of a unique-key violation. */
  const UniqueViolation := "23505"

  /** An error the store reports: a coded failure, or `.single()` finding no row. */
  datatype DbError = Failed(code: string) | NoRow

  datatype Reply<T> = Ok(value: T) | Err(error: DbError)

  /** Keys agree with the rows they index and card ids are distinct. */
  ghost predicate WellFormed(db: Db) {
    && (forall u :: u in db.profiles ==> db.profiles[u].id == u)
    && (forall u :: u in db.cards ==> db.cards[u].userId == u && db.cards[u].id < db.nextCardId)
    && (forall u, v :: u in db.cards && v in db.cards && u != v ==> db.cards[u].id != db.cards[v].id)
  }

  /** Every recorded stamp event grants at least one stamp. */
  ghost predicate EventsPositive(db: Db) {
    forall i :: 0 <= i < |db.events| ==> db.events[i].amount >= 1
  }

  /** `select ... eq("user_id", uid).maybeSingle()` on `loyalty_cards`. */
  function SelectCard(db: Db, uid: UserId): (r: Option<Card>)
    ensures r.Some? <==> uid in db.cards
    ensures r.Some? ==> r.value == db.cards[uid]
  {
    if uid in db.cards then Some(db.cards[uid]) else None
  }

  /** `select ... eq("id", uid).maybeSingle()` on `profiles`. */
  function SelectProfile(db: Db, uid: UserId): (r: Option<Profile>)
    ensures r.Some? <==> uid in db.profiles
    ensures r.Some? ==> r.value == db.profiles[uid]
  {
    if uid in db.profiles then Some(db.profiles[uid]) else None
  }

  /** `insert(row).select().single()` on `loyalty_cards`. The unique key on
      `user_id` turns a second card for the same user into error 23505. */
  function InsertCard(db: Db, uid: UserId, cols: Columns, fault: Option<string>): (res: (Db, Reply<Card>))
    ensures WellFormed(db) ==> WellFormed(res.0)
    ensures res.1.Err? ==> res.0 == db
    ensures fault.None? && uid in db.cards ==> res.1 == Err(Failed(UniqueViolation))
    ensures res.1.Ok? <==> fault.None? && uid !in db.cards
    ensures res.1.Ok? ==>
      && res.1.value.userId == uid && res.1.value.cols == cols
      && res.0 == db.(cards := db.cards[uid := res.1.value], nextCardId := db.nextCardId + 1)
  {
    if fault.Some? then (db, Err(Failed(fault.value)))
    else if uid in db.cards then (db, Err(Failed(UniqueViolation)))
    else
      var card := Card(db.nextCardId, uid, cols, None);
      (db.(cards := db.cards[uid := card], nextCardId := db.nextCardId + 1), Ok(card))
  }

  /** `insert(row).select().single()` on `profiles`, keyed by `id`. */
  function InsertProfile(db: Db, p: Profile, fault: Option<string>): (res: (Db, Reply<Profile>))
    ensures WellFormed(db) ==> WellFormed(res.0)
    ensures res.1.Err? ==> res.0 == db
    ensures fault.None? && p.id in db.profiles ==> res.1 == Err(Failed(UniqueViolation))
    ensures res.1.Ok? <==> fault.None? && p.id !in db.profiles
    ensures res.1.Ok? ==> res.1.value == p && res.0 == db.(profiles := db.profiles[p.id := p])
  {
    if fault.Some? then (db, Err(Failed(fault.value)))
    else if p.id in db.profiles then (db, Err(Failed(UniqueViolation)))
    else (db.(profiles := db.profiles[p.id := p]), Ok(p))
  }

  /** `upsert(row, { onConflict: "id" })` on `profiles`: the row is inserted,
      or the columns it carries overwrite those of the existing row (a column
      it does not carry, `email`, keeps its stored value). */
  function UpsertProfile(db: Db, p: Profile, fault: bool): (res: (Db, bool))
    ensures WellFormed(db) ==> WellFormed(res.0)
    ensures res.1 <==> !fault
    ensures !res.1 ==> res.0 == db
    ensures res.1 ==>
      && p.id in res.0.profiles
      && res.0 == db.(profiles := db.profiles[p.id := res.0.profiles[p.id]])
      && res.0.profiles[p.id] == p.(email := if p.id in db.profiles then db.profiles[p.id].email else None)
  {
    if fault then (db, false)
    else
      var email := if p.id in db.profiles then db.profiles[p.id].email else None;
      (db.(profiles := db.profiles[p.id := p.(email := email)]), true)
  }

  /** `insert(event)` on `stamp_events`: the log only grows. */
  function AppendEvent(db: Db, e: StampEvent, fault: bool): (res: (Db, bool))
    ensures res.1 <==> !fault
    ensures res.0 == if fault then db else db.(events := db.events + [e])
  {
    if fault then (db, false) else (db.(events := db.events + [e]), true)
  }

  /** Another session's insert of a card for `uid` that lands between a
      page's read and its own insert (a failed rival insert changes nothing). */
  function WithRivalCard(db: Db, uid: UserId, rival: Option<Columns>): (r: Db)
    ensures WellFormed(db) ==> WellFormed(r)
    ensures rival.Some? && uid !in db.cards ==>
      && uid in r.cards && r.cards[uid].cols == rival.value
      && r == db.(cards := db.cards[uid := r.cards[uid]], nextCardId := db.nextCardId + 1)
    ensures rival.None? || uid in db.cards ==> r == db
  {
    if rival.Some? then InsertCard(db, uid, rival.value, None).0 else db
  }
}
