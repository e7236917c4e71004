/** The staff page that credits stamps to the customer whose code was scanned:
    it loads (and if needed creates) the customer's card, lets the operator
    pick an amount with a stepper that never goes below 1, and on confirmation
    appends a stamp event and then overwrites the card with counters it
    computed itself from the card it last read. */
module StaffAdd {
  import opened Common
  import opened Store
  import Reward

  /** Stamps needed for a reward. */
  const RequiredPoints: nat := 10

  const ProfileLoadError := "No se pudo cargar el perfil del cliente."
  const CardLoadError := "No se pudo cargar la tarjeta de fidelidad."
  const CardCreateError := "No se pudo crear la tarjeta del cliente."
  const EventError := "No se pudo registrar el evento de sellos."
  const CardUpdateError := "No se pudo actualizar la tarjeta del cliente."
  const GrantSuccess := "Sellos añadidos correctamente."

  /** The columns of a card this page creates: all three counters zero. */
  const ZeroCounters := Columns(Some(0), Some(0), Some(0), None)

  /** The row that `update(...).eq("id", snapshot.id)` addresses still exists. */
  predicate RowPresent(db: Db, snapshot: Card) {
    snapshot.userId in db.cards && db.cards[snapshot.userId].id == snapshot.id
  }

  datatype GrantOutcome = EventFailed | CardFailed | Granted(card: Card)

  /** The two store writes of one confirmation: append the event, then
      overwrite the stored row with counters computed from `snapshot`. */
  function Grant(db: Db, snapshot: Card, staffId: UserId, amount: int, now: string,
                 eventFault: bool, updateFault: Option<string>): (res: (Db, GrantOutcome))
    ensures var e := StampEvent(snapshot.userId, staffId, amount);
      var (db', out) := res;
      // the event insert failed: nothing at all is written
      && (out.EventFailed? <==> eventFault)
      && (out.EventFailed? ==> db' == db)
      // the card update failed after the event insert: the event stays, the card does not move
      && (out.CardFailed? <==> !eventFault && (updateFault.Some? || !RowPresent(db, snapshot)))
      && (out.CardFailed? ==> db' == db.(events := db.events + [e]))
      // success: one event carrying `amount`, and the counters raised from the snapshot
      && (out.Granted? ==>
            && db' == db.(events := db.events + [e], cards := db.cards[snapshot.userId := out.card])
            && out.card.id == snapshot.id
            && OrZero(out.card.cols.currentStamps) == OrZero(snapshot.cols.currentStamps) + amount
            && OrZero(out.card.cols.totalStamps) == OrZero(snapshot.cols.totalStamps) + amount
            && OrZero(out.card.cols.totalVisits) == OrZero(snapshot.cols.totalVisits) + 1
            && out.card.cols.points == db.cards[snapshot.userId].cols.points
            && out.card.updatedAt == Some(now))
  {
    var e := StampEvent(snapshot.userId, staffId, amount);
    var (afterEvent, logged) := AppendEvent(db, e, eventFault);
    if !logged then (db, EventFailed)
    else if updateFault.Some? || !RowPresent(afterEvent, snapshot) then (afterEvent, CardFailed)
    else
      var stored := afterEvent.cards[snapshot.userId];
      var updated := stored.(
        cols := stored.cols.(
          currentStamps := Some(OrZero(snapshot.cols.currentStamps) + amount),
          totalStamps := Some(OrZero(snapshot.cols.totalStamps) + amount),
          totalVisits := Some(OrZero(snapshot.cols.totalVisits) + 1)),
        updatedAt := Some(now));
      (afterEvent.(cards := afterEvent.cards[snapshot.userId := updated]), Granted(updated))
  }

  /** Stamps the log records for `uid`: the sum of its events' amounts. */
  function Logged(events: seq<StampEvent>, uid: UserId): int {
    if events == [] then 0
    else
      var last := events[|events| - 1];
      Logged(events[..|events| - 1], uid) + (if last.userId == uid then last.amount else 0)
  }

  /** The card agrees with the log: the lifetime stamps on the card are the
      stamps the events grant (the reconciliation rule of the ledger). */
  ghost predicate InSync(db: Db, uid: UserId) {
    uid in db.cards && OrZero(db.cards[uid].cols.totalStamps) == Logged(db.events, uid)
  }

  /** A grant made from an up-to-date card keeps card and log in agreement,
      while one whose card update fails leaves the card `amount` stamps
      behind the log. */
  lemma GrantAndLog(db: Db, staffId: UserId, uid: UserId, amount: int, now: string,
                    eventFault: bool, updateFault: Option<string>)
    requires WellFormed(db) && InSync(db, uid)
    ensures var (db', out) := Grant(db, db.cards[uid], staffId, amount, now, eventFault, updateFault);
      && (out.CardFailed? ==> OrZero(db'.cards[uid].cols.totalStamps) + amount == Logged(db'.events, uid))
      && (!out.CardFailed? ==> InSync(db', uid))
  {
    var (db', out) := Grant(db, db.cards[uid], staffId, amount, now, eventFault, updateFault);
    if !out.EventFailed? {
      assert db'.events[..|db'.events| - 1] == db.events;
    }
  }

  /** Two grants computed from the same stale card (two devices, or a page
      that missed the first write) keep only the last one on the card, while
      the log records both: the second write is an overwrite, not an increment. */
  lemma StaleSnapshotKeepsLastGrant(db: Db, snapshot: Card, s1: UserId, s2: UserId, a1: int, a2: int, t1: string, t2: string)
    requires RowPresent(db, snapshot)
    ensures var (db1, out1) := Grant(db, snapshot, s1, a1, t1, false, None);
      var (db2, out2) := Grant(db1, snapshot, s2, a2, t2, false, None);
      && out1.Granted? && out2.Granted?
      && OrZero(db2.cards[snapshot.userId].cols.currentStamps) == OrZero(snapshot.cols.currentStamps) + a2
      && OrZero(db2.cards[snapshot.userId].cols.totalStamps) == OrZero(snapshot.cols.totalStamps) + a2
      && Logged(db2.events, snapshot.userId) == Logged(db.events, snapshot.userId) + a1 + a2
  {
    var (db1, out1) := Grant(db, snapshot, s1, a1, t1, false, None);
    var (db2, out2) := Grant(db1, snapshot, s2, a2, t2, false, None);
    assert db2.events[..|db2.events| - 1] == db1.events;
    assert db1.events[..|db1.events| - 1] == db.events;
  }

  /** The local state of the page (its `useState` hooks). */
  class StaffAddPage {
    const userId: UserId
    var staffId: Option<UserId>
    var profile: Option<Profile>
    var card: Option<Card>
    var amount: int
    var loading: bool
    var saving: bool
    var error: string
    var success: string

    /** The stepper keeps `amount` at 1 or more, and the card shown is the customer's. */
    ghost predicate Valid()
      reads this
    {
      amount >= 1 && (card.Some? ==> card.value.userId == userId)
    }

    constructor (userId: UserId)
      ensures Valid()
      ensures this.userId == userId && staffId == None && profile == None && card == None
      ensures amount == 1 && loading && !saving && error == "" && success == ""
    {
      this.userId := userId;
      staffId, profile, card := None, None, None;
      amount, loading, saving, error, success := 1, true, false, "", "";
    }

    /** The page's load effect: with a staff session, read the customer's
        profile and card, creating the card with zero counters when absent.
        A card another session creates between the read and the insert makes
        the insert fail, and this page then reports an error. */
    method Load(db: Db, session: Option<UserId>, profileFault: bool, cardFault: bool,
                rival: Option<Columns>, insertFault: Option<string>) returns (db': Db, toLogin: bool)
      requires Valid() && WellFormed(db)
      modifies this
      ensures Valid() && WellFormed(db')
      ensures toLogin <==> session.None?
      ensures session.None? ==> db' == db && unchanged(this)
      ensures session.Some? ==>
        && staffId == session && !loading && amount == old(amount) && saving == old(saving) && success == old(success)
        && db'.events == db.events && db'.profiles == db.profiles && db'.promotions == db.promotions
      ensures session.Some? && profileFault ==>
        db' == db && error == ProfileLoadError && profile == old(profile) && card == old(card)
      ensures session.Some? && !profileFault ==> profile == SelectProfile(db, userId)
      ensures session.Some? && !profileFault && cardFault ==>
        db' == db && error == CardLoadError && card == old(card)
      ensures session.Some? && !profileFault && !cardFault && userId in db.cards ==>
        db' == db && error == old(error) && card == Some(db.cards[userId])
      ensures session.Some? && !profileFault && !cardFault && userId !in db.cards && rival.None? && insertFault.None? ==>
        && error == old(error) && card.Some? && card.value.cols == ZeroCounters
        && db' == db.(cards := db.cards[userId := card.value], nextCardId := db.nextCardId + 1)
      ensures session.Some? && !profileFault && !cardFault && userId !in db.cards && (rival.Some? || insertFault.Some?) ==>
        db' == WithRivalCard(db, userId, rival) && error == CardCreateError && card == old(card)
    {
      db', toLogin := db, false;
      if session.None? {
        toLogin := true;
        return;
      }
      staffId := session;
      if profileFault {
        error := ProfileLoadError;
        loading := false;
        return;
      }
      profile := SelectProfile(db, userId);
      db' := LoadCard(db, cardFault, rival, insertFault);
    }

    /** The card half of the load effect. */
    method LoadCard(db: Db, cardFault: bool, rival: Option<Columns>, insertFault: Option<string>) returns (db': Db)
      requires Valid() && WellFormed(db)
      modifies this`card, this`error, this`loading
      ensures Valid() && WellFormed(db') && !loading
      ensures db'.events == db.events && db'.profiles == db.profiles && db'.promotions == db.promotions
      ensures cardFault ==> db' == db && error == CardLoadError && card == old(card)
      ensures !cardFault && userId in db.cards ==> db' == db && error == old(error) && card == Some(db.cards[userId])
      ensures !cardFault && userId !in db.cards && rival.None? && insertFault.None? ==>
        && error == old(error) && card.Some? && card.value.cols == ZeroCounters
        && db' == db.(cards := db.cards[userId := card.value], nextCardId := db.nextCardId + 1)
      ensures !cardFault && userId !in db.cards && (rival.Some? || insertFault.Some?) ==>
        db' == WithRivalCard(db, userId, rival) && error == CardCreateError && card == old(card)
    {
      db' := db;
      if cardFault {
        error := CardLoadError;
        loading := false;
        return;
      }
      var found := SelectCard(db, userId);
      if found.None? {
        var between := WithRivalCard(db, userId, rival);
        var (afterInsert, inserted) := InsertCard(between, userId, ZeroCounters, insertFault);
        db' := afterInsert;
        if inserted.Err? {
          error := CardCreateError;
          loading := false;
          return;
        }
        card := Some(inserted.value);
      } else {
        card := found;
      }
      loading := false;
    }

    /** The "−" button: `Math.max(1, amount - 1)`. */
    method Decrement()
      requires Valid()
      modifies this`amount
      ensures Valid()
      ensures amount == if old(amount) > 1 then old(amount) - 1 else 1
    {
      amount := if 1 > amount - 1 then 1 else amount - 1;
    }

    /** The "+" button. */
    method Increment()
      requires Valid()
      modifies this`amount
      ensures Valid()
      ensures amount == old(amount) + 1
    {
      amount := amount + 1;
    }

    /** `handleAddStamps`: with no card or no staff session it does nothing;
        otherwise it clears the messages, marks the page as saving, appends
        the event and overwrites the card. On success the page shows the
        stored card and resets the amount to 1; on either failure it keeps the
        amount (so the operator can retry) and shows the card it had. */
    method HandleAddStamps(db: Db, now: string, eventFault: bool, updateFault: Option<string>) returns (db': Db)
      requires Valid() && WellFormed(db)
      modifies this
      ensures Valid() && WellFormed(db')
      ensures EventsPositive(db) ==> EventsPositive(db')
      ensures old(card).None? || old(staffId).None? ==> db' == db && unchanged(this)
      ensures old(card).Some? && old(staffId).Some? ==>
        var (after, out) := Grant(db, old(card).value, old(staffId).value, old(amount), now, eventFault, updateFault);
        && db' == after
        && !saving && staffId == old(staffId) && profile == old(profile) && loading == old(loading)
        && (out.Granted? ==>
              card == Some(db'.cards[userId]) && amount == 1 && error == "" && success == GrantSuccess)
        && (!out.Granted? ==>
              card == old(card) && amount == old(amount) && success == ""
              && error == (if out.EventFailed? then EventError else CardUpdateError))
    {
      db' := db;
      if card.None? || staffId.None? {
        return;
      }
      error := "";
      success := "";
      saving := true;

      // 1) record the event
      var snapshot := card.value;
      var (afterEvent, logged) := AppendEvent(db, StampEvent(userId, staffId.value, amount), eventFault);
      if !logged {
        error := EventError;
        saving := false;
        return;
      }

      // 2) overwrite the card row
      db' := UpdateCard(db, afterEvent, snapshot, now, updateFault);
    }

    /** The second write of `handleAddStamps`, once the event is recorded:
        overwrite the row whose id is the snapshot's with the counters
        computed from the snapshot. `db` is the store before the event. */
    method UpdateCard(ghost db: Db, afterEvent: Db, snapshot: Card, now: string, updateFault: Option<string>)
      returns (db': Db)
      requires Valid() && WellFormed(db) && card == Some(snapshot) && staffId.Some?
      requires afterEvent == db.(events := db.events + [StampEvent(userId, staffId.value, amount)])
      modifies this`card, this`error, this`saving, this`success, this`amount
      ensures Valid() && WellFormed(db') && !saving
      ensures var (after, out) := Grant(db, snapshot, staffId.value, old(amount), now, false, updateFault);
        && db' == after
        && (out.Granted? ==>
              card == Some(db'.cards[userId]) && amount == 1 && error == old(error) && success == GrantSuccess)
        && (!out.Granted? ==>
              card == old(card) && amount == old(amount) && success == old(success) && error == CardUpdateError)
    {
      db' := afterEvent;
      ghost var expected := Grant(db, snapshot, staffId.value, amount, now, false, updateFault);
      if updateFault.Some? || !RowPresent(db', snapshot) {
        assert expected == (db', CardFailed);
        error := CardUpdateError;
        saving := false;
        return;
      }
      var stored := db'.cards[userId];
      var updated := stored.(
        cols := stored.cols.(
          currentStamps := Some(OrZero(snapshot.cols.currentStamps) + amount),
          totalStamps := Some(OrZero(snapshot.cols.totalStamps) + amount),
          totalVisits := Some(OrZero(snapshot.cols.totalVisits) + 1)),
        updatedAt := Some(now));
      db' := db'.(cards := db'.cards[userId := updated]);
      assert expected == (db', Granted(updated));

      card := Some(updated);
      saving := false;
      success := GrantSuccess;
      amount := 1;
    }

    /** What the card widget shows: the reward arithmetic on `current_stamps ?? 0`. */
    function Display(): (e: Reward.Evaluation)
      reads this
      requires card.Some?
      ensures e.filled + e.remaining == RequiredPoints
      ensures e.progressScaled <= 100 * RequiredPoints
    {
      Reward.Evaluate(OrZero(card.value.cols.currentStamps), RequiredPoints)
    }
  }
}
