/** The staff console's customer list: it joins the customer profiles with
    their cards, sorts by visits (most first), and lets staff add or subtract
    visits directly on a card, clamped at zero and without any stamp event. */
module StaffConsole {
  import opened Common
  import opened Store

  const NoName := "(sin nombre)"
  const UpdateAlert := "No se pudo actualizar las visitas. Revisa permisos/RLS."
  const InputAlert := "Ingresa un número válido (mayor a 0)."

  /** One line of the list. */
  datatype Customer = Customer(id: UserId, name: string, visits: int)

  // ---------------------------------------------------------------------------
  // The join

  /** `cards.find((c) => c.user_id === uid)`: the first card of the user. */
  function FindCard(cards: seq<Card>, uid: UserId): (r: Option<Card>)
    ensures r.Some? ==> r.value in cards && r.value.userId == uid
    ensures r.Some? ==> exists i :: 0 <= i < |cards| && cards[i] == r.value && NoCardBefore(cards, uid, i)
    ensures r.None? ==> forall c :: c in cards ==> c.userId != uid
  {
    if cards == [] then None
    else if cards[0].userId == uid then Some(cards[0])
    else FindCard(cards[1..], uid)
  }

  /** No card of `uid` comes before position `i`. */
  predicate NoCardBefore(cards: seq<Card>, uid: UserId, i: int)
    requires 0 <= i <= |cards|
  {
    forall j :: 0 <= j < i ==> cards[j].userId != uid
  }

  /** The entry for one profile: `full_name || "(sin nombre)"` and
      `card?.total_visits ?? 0`. */
  function Entry(p: Profile, cards: seq<Card>): (c: Customer)
    ensures c.id == p.id
    ensures c.name == if p.fullName.Some? && p.fullName.value != "" then p.fullName.value else NoName
    ensures FindCard(cards, p.id).None? ==> c.visits == 0
  {
    var card := FindCard(cards, p.id);
    Customer(p.id, if p.fullName.Some? && p.fullName.value != "" then p.fullName.value else NoName,
             if card.Some? then OrZero(card.value.cols.totalVisits) else 0)
  }

  /** `profiles.map(...)`: one entry per profile, in the profiles' order. */
  function Merge(profiles: seq<Profile>, cards: seq<Card>): (merged: seq<Customer>)
    ensures |merged| == |profiles|
    ensures forall i :: 0 <= i < |profiles| ==> merged[i] == Entry(profiles[i], cards)
  {
    seq(|profiles|, i requires 0 <= i < |profiles| => Entry(profiles[i], cards))
  }

  /** Under a unique `user_id`, a customer's entry shows the visits of that
      customer's own card, or 0 when the customer has none or its count is null. */
  lemma MergedVisits(profiles: seq<Profile>, cards: seq<Card>, i: int)
    requires 0 <= i < |profiles|
    requires forall a, b :: 0 <= a < b < |cards| ==> cards[a].userId != cards[b].userId
    ensures var m := Merge(profiles, cards)[i];
      m.visits == (if exists c :: c in cards && c.userId == profiles[i].id
                   then OrZero(CardOf(cards, profiles[i].id).cols.totalVisits) else 0)
  {
    if exists c :: c in cards && c.userId == profiles[i].id {
      var f := FindCard(cards, profiles[i].id);
      assert f.Some?;
      UniqueCard(cards, f.value, CardOf(cards, profiles[i].id));
    }
  }

  ghost function CardOf(cards: seq<Card>, uid: UserId): Card
    requires exists c :: c in cards && c.userId == uid
  {
    var c :| c in cards && c.userId == uid; c
  }

  lemma UniqueCard(cards: seq<Card>, c1: Card, c2: Card)
    requires forall a, b :: 0 <= a < b < |cards| ==> cards[a].userId != cards[b].userId
    requires c1 in cards && c2 in cards && c1.userId == c2.userId
    ensures c1 == c2
  {
    var a :| 0 <= a < |cards| && cards[a] == c1;
    var b :| 0 <= b < |cards| && cards[b] == c2;
  }

  // ---------------------------------------------------------------------------
  // merged.sort((a, b) => b.visits - a.visits): a stable sort, most visits first

  predicate NonIncreasing(s: seq<Customer>) {
    forall i, j :: 0 <= i < j < |s| ==> s[i].visits >= s[j].visits
  }

  /** Puts `x` before the first entry with no more visits than it has, so it
      stays ahead of the entries with equal visits that came after it. */
  function Insert(x: Customer, sorted: seq<Customer>): (r: seq<Customer>)
    ensures |r| == |sorted| + 1
    ensures r[0] == x || (sorted != [] && r[0] == sorted[0])
  {
    if sorted == [] || sorted[0].visits <= x.visits then [x] + sorted
    else [sorted[0]] + Insert(x, sorted[1..])
  }

  lemma {:induction false} InsertSorted(x: Customer, sorted: seq<Customer>)
    requires NonIncreasing(sorted)
    ensures NonIncreasing(Insert(x, sorted))
  {
    var r := Insert(x, sorted);
    if sorted == [] || sorted[0].visits <= x.visits {
      assert forall j :: 0 < j < |r| ==> r[j] == sorted[j - 1];
    } else {
      var rest := Insert(x, sorted[1..]);
      InsertSorted(x, sorted[1..]);
      assert forall j :: 0 < j < |r| ==> r[j] == rest[j - 1];
      assert forall j :: 0 < j < |rest| ==> rest[0].visits >= rest[j].visits;
    }
  }

  lemma {:induction false} InsertPermutes(x: Customer, sorted: seq<Customer>)
    ensures multiset(Insert(x, sorted)) == multiset(sorted) + multiset{x}
  {
    if sorted != [] && sorted[0].visits > x.visits {
      InsertPermutes(x, sorted[1..]);
      assert sorted == [sorted[0]] + sorted[1..];
    }
  }

  /** The list order: most visits first, holding the same entries. */
  function SortByVisits(s: seq<Customer>): (r: seq<Customer>)
    ensures NonIncreasing(r)
    ensures multiset(r) == multiset(s)
  {
    if s == [] then []
    else
      var rest := SortByVisits(s[1..]);
      InsertHead(s, rest);
      Insert(s[0], rest)
  }

  /** One step of the sort: inserting the head into the sorted tail. */
  lemma InsertHead(s: seq<Customer>, rest: seq<Customer>)
    requires s != [] && NonIncreasing(rest) && multiset(rest) == multiset(s[1..])
    ensures NonIncreasing(Insert(s[0], rest))
    ensures multiset(Insert(s[0], rest)) == multiset(s)
  {
    InsertSorted(s[0], rest);
    InsertPermutes(s[0], rest);
    assert s == [s[0]] + s[1..];
  }

  /** The entries with `visits == v`, in order. */
  function WithVisits(s: seq<Customer>, v: int): seq<Customer> {
    if s == [] then [] else (if s[0].visits == v then [s[0]] else []) + WithVisits(s[1..], v)
  }

  lemma {:induction false} InsertStable(x: Customer, sorted: seq<Customer>, v: int)
    requires NonIncreasing(sorted)
    ensures WithVisits(Insert(x, sorted), v) ==
      (if x.visits == v then [x] else []) + WithVisits(sorted, v)
  {
    if sorted == [] || sorted[0].visits <= x.visits {
      assert Insert(x, sorted)[1..] == sorted;
    } else {
      InsertStable(x, sorted[1..], v);
      assert Insert(x, sorted)[1..] == Insert(x, sorted[1..]);
      if x.visits == v {
        assert sorted[0].visits != v;
      }
    }
  }

  /** The sort is stable (as `Array.prototype.sort` is): customers with the
      same number of visits keep their order from the join. */
  lemma {:induction false} SortStable(s: seq<Customer>, v: int)
    ensures WithVisits(SortByVisits(s), v) == WithVisits(s, v)
  {
    if s != [] {
      SortStable(s[1..], v);
      InsertStable(s[0], SortByVisits(s[1..]), v);
    }
  }

  // ---------------------------------------------------------------------------
  // The direct visit adjustment

  /** `Math.max(current + delta, 0)`. */
  function Clamped(current: int, delta: int): (next: int)
    ensures next >= 0
    ensures next >= current + delta
    ensures next == 0 || next == current + delta
  {
    if current + delta > 0 then current + delta else 0
  }

  /** `prev.map((c) => (c.id === uid ? { ...c, visits: next } : c))`. */
  function SetVisits(customers: seq<Customer>, uid: UserId, next: int): (r: seq<Customer>)
    ensures |r| == |customers|
    ensures forall i :: 0 <= i < |r| && customers[i].id == uid ==> r[i] == customers[i].(visits := next)
    ensures forall i :: 0 <= i < |r| && customers[i].id != uid ==> r[i] == customers[i]
  {
    seq(|customers|, i requires 0 <= i < |customers| =>
      if customers[i].id == uid then customers[i].(visits := next) else customers[i])
  }

  /** The card the console creates: only `total_visits`, set to 0. */
  const VisitsOnly := Columns(None, None, Some(0), None)

  /** `ensureCard`: the existing card, or a newly inserted one with
      `total_visits = 0`. Unlike the customer page it does not recover from a
      collision: error 23505 is thrown to the caller like any other. */
  method EnsureCard(db: Db, uid: UserId, readFault: bool, rival: Option<Columns>, insertFault: Option<string>)
    returns (db': Db, r: Reply<Card>)
    requires WellFormed(db)
    ensures WellFormed(db')
    ensures db'.profiles == db.profiles && db'.events == db.events
    ensures readFault ==> r.Err? && db' == db
    ensures !readFault && uid in db.cards ==> r == Ok(db.cards[uid]) && db' == db
    ensures !readFault && uid !in db.cards && rival.None? && insertFault.None? ==>
      && r.Ok? && r.value.userId == uid && r.value.cols == VisitsOnly
      && db' == db.(cards := db.cards[uid := r.value], nextCardId := db.nextCardId + 1)
    ensures !readFault && uid !in db.cards && rival.Some? && insertFault.None? ==>
      r == Err(Failed(UniqueViolation)) && db' == WithRivalCard(db, uid, rival)
    ensures !readFault && uid !in db.cards && insertFault.Some? ==> r.Err? && db' == WithRivalCard(db, uid, rival)
    ensures r.Ok? ==> uid in db'.cards && db'.cards[uid] == r.value
    // at most the user's own card is added; no existing card changes
    ensures db'.cards == db.cards || (uid !in db.cards && uid in db'.cards && db'.cards == db.cards[uid := db'.cards[uid]])
  {
    if readFault {
      return db, Err(Failed("select"));
    }
    var existing := SelectCard(db, uid);
    if existing.Some? {
      return db, Ok(existing.value);
    }
    db' := WithRivalCard(db, uid, rival);
    var (afterInsert, inserted) := InsertCard(db', uid, VisitsOnly, insertFault);
    db' := afterInsert;
    r := inserted;
  }

  /** `update({ total_visits: next }).eq("user_id", uid)`: every row of the
      user, with no `.single()`, so a missing row is not an error. */
  function WriteVisits(db: Db, uid: UserId, next: int, fault: bool): (res: (Db, bool))
    ensures res.1 <==> !fault
    ensures !res.1 || uid !in db.cards ==> res.0 == db
    ensures res.1 && uid in db.cards ==>
      res.0 == db.(cards := db.cards[uid := db.cards[uid].(cols := db.cards[uid].cols.(totalVisits := Some(next)))])
  {
    if fault then (db, false)
    else if uid !in db.cards then (db, true)
    else
      var c := db.cards[uid];
      (db.(cards := db.cards[uid := c.(cols := c.cols.(totalVisits := Some(next)))]), true)
  }

  /** The store part of `updateVisits` (its `try` block): ensure the card,
      then write the clamped count. `next` is the count written, or `None`
      when something was thrown. */
  method AdjustVisits(db: Db, uid: UserId, delta: int, readFault: bool, rival: Option<Columns>,
                      insertFault: Option<string>, writeFault: bool) returns (db': Db, next: Option<int>)
    requires WellFormed(db)
    ensures WellFormed(db')
    ensures db'.events == db.events && db'.profiles == db.profiles
    ensures next.None? <==> readFault || writeFault || (uid !in db.cards && (rival.Some? || insertFault.Some?))
    // a failure writes nothing to an existing card: at most the card `ensureCard` created remains
    ensures readFault ==> db' == db
    ensures next.None? && uid in db.cards ==> db' == db
    ensures !readFault && uid !in db.cards && (rival.Some? || insertFault.Some?) ==> db' == WithRivalCard(db, uid, rival)
    ensures !readFault && writeFault && uid !in db.cards && rival.None? && insertFault.None? ==>
      uid in db'.cards && db'.cards == db.cards[uid := db'.cards[uid]] && db'.cards[uid].cols == VisitsOnly
    // only the user's card, and the id counter when that card is created, can change
    ensures db' == db.(cards := db'.cards, nextCardId := db'.nextCardId)
    ensures db'.cards == db.cards || (uid in db'.cards && db'.cards == db.cards[uid := db'.cards[uid]])
    ensures db'.nextCardId == db.nextCardId || (uid !in db.cards && db'.nextCardId == db.nextCardId + 1)
    ensures next.Some? ==> next.value >= 0 && uid in db'.cards && db'.cards[uid].cols.totalVisits == next
    ensures !readFault && !writeFault && uid in db.cards ==>
      && next == Some(Clamped(OrZero(db.cards[uid].cols.totalVisits), delta))
      && db'.cards == db.cards[uid := db'.cards[uid]]
      && db'.cards[uid].cols.(totalVisits := db.cards[uid].cols.totalVisits) == db.cards[uid].cols
    ensures !readFault && !writeFault && uid !in db.cards && rival.None? && insertFault.None? ==>
      && next == Some(Clamped(0, delta))
      && db'.cards[uid].cols == VisitsOnly.(totalVisits := next)
  {
    var ensured;
    db', ensured := EnsureCard(db, uid, readFault, rival, insertFault);
    if ensured.Err? {
      return db', None;
    }
    ghost var mid := db';
    db', next := WriteClamped(db', ensured.value, delta, writeFault);
    if uid in db.cards {
      assert mid == db;
    } else {
      // the created card is the one the update overwrites
      assert mid.cards == db.cards[uid := mid.cards[uid]];
      assert db'.cards == db.cards[uid := db'.cards[uid]];
    }
  }

  /** The rest of the `try` block, once the card is known: write the clamped
      count over that card. */
  method WriteClamped(db: Db, card: Card, delta: int, writeFault: bool) returns (db': Db, next: Option<int>)
    requires WellFormed(db) && card.userId in db.cards && db.cards[card.userId] == card
    ensures WellFormed(db')
    ensures db'.events == db.events && db'.profiles == db.profiles
    ensures db'.promotions == db.promotions && db'.nextCardId == db.nextCardId
    ensures writeFault ==> next.None? && db' == db
    ensures !writeFault ==>
      && next == Some(Clamped(OrZero(card.cols.totalVisits), delta))
      && db'.cards == db.cards[card.userId := card.(cols := card.cols.(totalVisits := next))]
  {
    var n := Clamped(OrZero(card.cols.totalVisits), delta);
    var (afterWrite, written) := WriteVisits(db, card.userId, n, writeFault);
    db' := afterWrite;
    next := if written then Some(n) else None;
  }

  /** What `updateVisits` with a non-zero `delta` leaves behind: the alert is
      raised exactly when the read, the card creation or the update failed,
      and then the list is kept and no existing card changed; otherwise the
      card's `total_visits` is the clamped sum, the list entry shows it, and
      no other card, profile or stamp event changes. */
  ghost predicate UpdateApplied(db: Db, uid: UserId, delta: int, readFault: bool, rival: Option<Columns>,
                                insertFault: Option<string>, writeFault: bool,
                                db': Db, alert: Option<string>, before: seq<Customer>, after: seq<Customer>)
  {
    && WellFormed(db')
    && db' == db.(cards := db'.cards, nextCardId := db'.nextCardId)
    && (db'.cards == db.cards || (uid in db'.cards && db'.cards == db.cards[uid := db'.cards[uid]]))
    && (db'.nextCardId == db.nextCardId || (uid !in db.cards && db'.nextCardId == db.nextCardId + 1))
    && (alert.Some? <==> readFault || writeFault || (uid !in db.cards && (rival.Some? || insertFault.Some?)))
    && (alert.Some? ==> alert.value == UpdateAlert && after == before)
    && (readFault || (alert.Some? && uid in db.cards) ==> db' == db)
    && (!readFault && uid !in db.cards && (rival.Some? || insertFault.Some?) ==> db' == WithRivalCard(db, uid, rival))
    && (!readFault && writeFault && uid !in db.cards && rival.None? && insertFault.None? ==>
          uid in db'.cards && db'.cards[uid].cols == VisitsOnly)
    && (alert.None? ==>
          var next := Clamped(if uid in db.cards then OrZero(db.cards[uid].cols.totalVisits) else 0, delta);
          && after == SetVisits(before, uid, next)
          && uid in db'.cards && db'.cards[uid].cols.totalVisits == Some(next)
          && (uid in db.cards ==> db'.cards[uid].cols.(totalVisits := db.cards[uid].cols.totalVisits) == db.cards[uid].cols)
          && (uid !in db.cards ==> db'.cards[uid].cols == VisitsOnly.(totalVisits := Some(next))))
  }

  /** The local state of the console. */
  class Console {
    var customers: seq<Customer>
    var loading: bool
    var addMap: map<UserId, string>
    var busyId: Option<UserId>

    constructor ()
      ensures customers == [] && loading && addMap == map[] && busyId == None
    {
      customers, loading, addMap, busyId := [], true, map[], None;
    }

    /** `loadCustomers`: the two queries' results are inputs (a failed query
        leaves the list as it was); the list becomes the join sorted by
        visits, most first, stably. */
    method LoadCustomers(profiles: Option<seq<Profile>>, cards: Option<seq<Card>>)
      modifies this`customers, this`loading
      ensures !loading
      ensures profiles.None? || cards.None? ==> customers == old(customers)
      ensures profiles.Some? && cards.Some? ==>
        && customers == SortByVisits(Merge(profiles.value, cards.value))
        && multiset(customers) == multiset(Merge(profiles.value, cards.value))
        && NonIncreasing(customers)
    {
      loading := true;
      if profiles.None? || cards.None? {
        loading := false;
        return;
      }
      var merged := Merge(profiles.value, cards.value);
      customers := SortByVisits(merged);
      loading := false;
    }

    /** `updateVisits`: a zero or NaN delta does nothing. Otherwise the card
        is ensured, its `total_visits` is moved by `delta` and clamped at 0,
        and the list entry of that user shows the new count. On any failure
        an alert is raised and the list is kept. `busy` is the value of
        `busyId` while the update is in flight; it is cleared afterwards. */
    method UpdateVisits(db: Db, uid: UserId, delta: Num, readFault: bool, rival: Option<Columns>,
                        insertFault: Option<string>, writeFault: bool)
      returns (db': Db, alert: Option<string>, ghost busy: Option<UserId>)
      requires WellFormed(db)
      modifies this`customers, this`busyId
      ensures WellFormed(db')
      ensures db'.events == db.events && db'.profiles == db.profiles
      ensures delta.NaN? || delta == Int(0) ==>
        db' == db && alert.None? && customers == old(customers) && busyId == old(busyId)
      ensures delta.Int? && delta.value != 0 ==>
        && busy == Some(uid) && busyId.None?
        && UpdateApplied(db, uid, delta.value, readFault, rival, insertFault, writeFault,
                         db', alert, old(customers), customers)
    {
      db', alert, busy := db, None, None;
      if delta.NaN? || delta.value == 0 {
        return;
      }
      busyId := Some(uid);
      busy := busyId;

      var next;
      db', next := AdjustVisits(db, uid, delta.value, readFault, rival, insertFault, writeFault);
      if next.None? {
        alert := Some(UpdateAlert);
      } else {
        customers := SetVisits(customers, uid, next.value);
      }
      busyId := None;
    }

    /** The per-customer input box. */
    method OnAddInputChange(uid: UserId, value: string)
      modifies this`addMap
      ensures addMap == old(addMap)[uid := value]
    {
      addMap := addMap[uid := value];
    }

    /** `addCustom`: an empty, unparsable or non-positive entry is refused
        with an alert, no write, and the input kept. Otherwise the parsed
        number is added as a visit delta and the input is cleared. */
    method AddCustom(db: Db, uid: UserId, readFault: bool, rival: Option<Columns>,
                     insertFault: Option<string>, writeFault: bool) returns (db': Db, alert: Option<string>)
      requires WellFormed(db)
      modifies this`customers, this`busyId, this`addMap
      ensures WellFormed(db')
      ensures var raw := if uid in old(addMap) then old(addMap)[uid] else "";
        var n := ParseInt(raw);
        if raw == "" || n.NaN? || n.value <= 0 then
          db' == db && alert == Some(InputAlert) && addMap == old(addMap)
          && customers == old(customers) && busyId == old(busyId)
        else
          && addMap == old(addMap)[uid := ""] && busyId.None?
          && UpdateApplied(db, uid, n.value, readFault, rival, insertFault, writeFault,
                           db', alert, old(customers), customers)
    {
      var raw := if uid in addMap then addMap[uid] else "";
      var n := ParseInt(raw);
      if raw == "" || n.NaN? || n.value <= 0 {
        return db, Some(InputAlert);
      }
      ghost var busy;
      db', alert, busy := UpdateVisits(db, uid, n, readFault, rival, insertFault, writeFault);
      addMap := addMap[uid := ""];
    }
  }

  /** A number typed in decimal is accepted by the input check exactly when it is positive. */
  lemma TypedNumberAccepted(n: nat)
    ensures var p := ParseInt(DecimalString(n));
      !(DecimalString(n) == "" || p.NaN? || p.value <= 0) <==> n > 0
  {
    ParseDecimal(n);
  }
}
