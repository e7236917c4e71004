/** The customer's home page: on load it makes sure the customer has a
    profile and a loyalty card, creating each when absent, and treats a
    unique-key collision on that insert (another session created the row
    first) as "read the existing row". It also derives the header's display
    name and initials. */
module ClientHome {
  import opened Common
  import opened Store

  /** Stamps needed for a reward, passed down to the card view. */
  const RequiredPoints: nat := 10

  /** The columns of a card this page creates: all three counters zero. */
  const ZeroCounters := Columns(Some(0), Some(0), Some(0), None)

  /** The profile this page creates: empty name, role "customer". */
  function NewProfile(uid: UserId): Profile {
    Profile(uid, Some(""), None, None, None, Some("customer"), None)
  }

  /** JavaScript truthiness of a nullable string. */
  predicate Truthy(s: Option<string>) {
    s.Some? && s.value != ""
  }

  /** `(full_name && full_name.trim()) || email || ""`. */
  function DisplayName(p: Profile): (name: string)
    ensures Truthy(p.fullName) && Trim(p.fullName.value) != "" ==> name == Trim(p.fullName.value)
    ensures !(Truthy(p.fullName) && Trim(p.fullName.value) != "") && Truthy(p.email) ==> name == p.email.value
    ensures !(Truthy(p.fullName) && Trim(p.fullName.value) != "") && !Truthy(p.email) ==> name == ""
  {
    var trimmed := if Truthy(p.fullName) then Trim(p.fullName.value) else "";
    if trimmed != "" then trimmed
    else if Truthy(p.email) then p.email.value
    else ""
  }

  /** `.split(" ").filter(Boolean)`: the non-empty space-separated words. */
  function Words(s: string): (ws: seq<string>)
    ensures forall k :: 0 <= k < |ws| ==> ws[k] != "" && ' ' !in ws[k]
  {
    NonEmpty(Split(s))
  }

  /** `.filter(Boolean)` on the pieces: the non-empty ones, in order. */
  function NonEmpty(pieces: seq<string>): (r: seq<string>)
    requires forall k :: 0 <= k < |pieces| ==> ' ' !in pieces[k]
    ensures forall k :: 0 <= k < |r| ==> r[k] != "" && ' ' !in r[k]
    ensures forall w :: w in r <==> w in pieces && w != ""
    ensures |r| <= |pieces|
  {
    if pieces == [] then []
    else if pieces[0] == "" then NonEmpty(pieces[1..])
    else [pieces[0]] + NonEmpty(pieces[1..])
  }

  /** `.slice(0, 2).map((word) => word[0].toUpperCase()).join("")`. */
  function Initials(name: string): (r: string)
    ensures |r| <= 2
    ensures var ws := Words(name);
      && |r| == (if |ws| < 2 then |ws| else 2)
      && forall k :: 0 <= k < |r| ==> r[k] == ToUpper(ws[k][0])
  {
    var ws := Words(name);
    var firstTwo := if |ws| < 2 then ws else ws[..2];
    seq(|firstTwo|, k requires 0 <= k < |firstTwo| => ToUpper(firstTwo[k][0]))
  }

  /** Words round-trip through `join(" ")`: joining non-empty words without
      spaces and taking the words of the result gives them back, so the
      initials of a name are taken from exactly the words it was typed with. */
  lemma {:induction false} WordsOfJoin(ws: seq<string>)
    requires forall k :: 0 <= k < |ws| ==> ws[k] != "" && ' ' !in ws[k]
    ensures Words(Join(ws)) == ws
  {
    if |ws| == 1 {
      SplitWord(ws[0]);
      assert NonEmpty([ws[0]]) == [ws[0]] + NonEmpty([]);
    } else if |ws| > 1 {
      WordsOfJoin(ws[1..]);
      SplitBefore(ws[0], Join(ws[1..]));
      assert Split(Join(ws)) == [ws[0]] + Split(Join(ws[1..]));
      assert ([ws[0]] + Split(Join(ws[1..])))[1..] == Split(Join(ws[1..]));
    }
  }

  /** The filter keeps the order: filtering two runs of pieces one after the
      other gives the two filtered runs one after the other. */
  lemma {:induction false} NonEmptyConcat(p: seq<string>, q: seq<string>)
    requires forall k :: 0 <= k < |p| ==> ' ' !in p[k]
    requires forall k :: 0 <= k < |q| ==> ' ' !in q[k]
    ensures NonEmpty(p + q) == NonEmpty(p) + NonEmpty(q)
  {
    if p == [] {
      assert p + q == q;
    } else {
      NonEmptyConcat(p[1..], q);
      assert (p + q)[1..] == p[1..] + q;
    }
  }

  /** Words of a name with one more space in it: the words of either side, in
      order, however many spaces each side holds. */
  lemma WordsConcat(a: string, b: string)
    ensures Words(a + " " + b) == Words(a) + Words(b)
  {
    SplitConcat(a, b);
    NonEmptyConcat(Split(a), Split(b));
  }

  /** A run of characters without spaces is one word, or none when empty. */
  lemma WordsOfWord(w: string)
    requires ' ' !in w
    ensures Words(w) == if w == "" then [] else [w]
  {
    SplitWord(w);
    assert NonEmpty([w]) == (if w == "" then [] else [w]) + NonEmpty([]);
  }

  lemma {:induction false} SplitWord(w: string)
    requires ' ' !in w
    ensures Split(w) == [w]
  {
    if w != [] {
      SplitWord(w[1..]);
      assert [w[0]] + w[1..] == w;
    }
  }

  lemma {:induction false} SplitBefore(a: string, b: string)
    requires ' ' !in a
    ensures Split(a + " " + b) == [a] + Split(b)
  {
    if a == [] {
      assert a + " " + b == [' '] + b;
      assert (a + " " + b)[1..] == b;
    } else {
      SplitBefore(a[1..], b);
      assert (a + " " + b)[1..] == a[1..] + " " + b;
      assert [a[0]] + a[1..] == a;
    }
  }

  /** The local state of the page. */
  class ClientHomePage {
    var profile: Option<Profile>
    var card: Option<Card>

    constructor ()
      ensures profile == None && card == None
    {
      profile, card := None, None;
    }

    /** `fetchProfile`: read the profile; if absent insert an empty customer
        profile; on error 23505 re-read the row that won the race. Any other
        failure yields null and leaves the page's profile as it was. */
    method FetchProfile(db: Db, uid: UserId, readFault: bool, rival: Option<Profile>,
                        insertFault: Option<string>, rereadFault: bool) returns (db': Db, r: Option<Profile>)
      requires WellFormed(db)
      requires rival.Some? ==> rival.value.id == uid
      modifies this`profile
      ensures WellFormed(db')
      ensures db'.cards == db.cards && db'.events == db.events
      ensures r.Some? ==> uid in db'.profiles && r.value == db'.profiles[uid] && profile == r
      ensures r.None? ==> profile == old(profile)
      ensures readFault ==> r.None? && db' == db
      ensures !readFault && uid in db.profiles ==> r == Some(db.profiles[uid]) && db' == db
      ensures !readFault && uid !in db.profiles && rival.None? && insertFault.None? ==>
        r == Some(NewProfile(uid)) && db' == db.(profiles := db.profiles[uid := NewProfile(uid)])
      ensures !readFault && uid !in db.profiles && rival.Some? && insertFault.None? ==>
        db' == db.(profiles := db.profiles[uid := rival.value])
        && r == (if rereadFault then None else rival)
      ensures !readFault && uid !in db.profiles && insertFault.Some? && insertFault.value != UniqueViolation ==>
        r.None? && db' == (if rival.Some? then db.(profiles := db.profiles[uid := rival.value]) else db)
      // an insert refused with 23505 re-reads: the other session's row if there is one, else null
      ensures !readFault && uid !in db.profiles && insertFault == Some(UniqueViolation) ==>
        && db' == (if rival.Some? then db.(profiles := db.profiles[uid := rival.value]) else db)
        && r == (if rival.Some? && !rereadFault then rival else None)
    {
      db' := db;
      if readFault {
        return db, None;
      }
      var found := SelectProfile(db, uid);
      if found.Some? {
        profile := found;
        return db, found;
      }
      if rival.Some? {
        db' := db.(profiles := db.profiles[uid := rival.value]);
      }
      var (afterInsert, inserted) := InsertProfile(db', NewProfile(uid), insertFault);
      db' := afterInsert;
      if inserted.Err? {
        if inserted.error == Failed(UniqueViolation) {
          var existing := SelectProfile(db', uid);
          if !rereadFault && existing.Some? {
            profile := existing;
            return db', existing;
          }
        }
        return db', None;
      }
      profile := Some(inserted.value);
      r := Some(inserted.value);
    }

    /** `fetchCard`: read the card; if absent insert one with all three
        counters zero; on error 23505 re-read the card that won the race. Any
        other failure yields null and leaves the store as the race left it. */
    method FetchCard(db: Db, uid: UserId, readFault: bool, rival: Option<Columns>,
                     insertFault: Option<string>, rereadFault: bool) returns (db': Db, r: Option<Card>)
      requires WellFormed(db)
      modifies this`card
      ensures WellFormed(db')
      ensures db'.profiles == db.profiles && db'.events == db.events
      // only this user's card can appear; every other card is untouched
      ensures db'.cards.Keys <= db.cards.Keys + {uid}
      ensures forall u :: u in db.cards ==> u in db'.cards && db'.cards[u] == db.cards[u]
      ensures r.Some? ==> uid in db'.cards && r.value == db'.cards[uid] && card == r
      ensures r.None? ==> card == old(card)
      ensures readFault ==> r.None? && db' == db
      // an existing card is returned unchanged and nothing is inserted
      ensures !readFault && uid in db.cards ==> r == Some(db.cards[uid]) && db' == db
      // a missing card is created exactly once, with zero counters
      ensures !readFault && uid !in db.cards && rival.None? && insertFault.None? ==>
        && r.Some? && r.value.cols == ZeroCounters && r.value.userId == uid
        && db' == db.(cards := db.cards[uid := r.value], nextCardId := db.nextCardId + 1)
      // a collision returns the row the other session created
      ensures !readFault && uid !in db.cards && rival.Some? && insertFault.None? ==>
        && db' == WithRivalCard(db, uid, rival)
        && (rereadFault ==> r.None?)
        && (!rereadFault ==> r.Some? && r.value.cols == rival.value)
      // any other insert error yields null and writes nothing of its own
      ensures !readFault && uid !in db.cards && insertFault.Some? && insertFault.value != UniqueViolation ==>
        r.None? && db' == WithRivalCard(db, uid, rival)
      // an insert refused with 23505 re-reads: the other session's card if there is one, else null
      ensures !readFault && uid !in db.cards && insertFault == Some(UniqueViolation) ==>
        && db' == WithRivalCard(db, uid, rival)
        && (rival.None? || rereadFault ==> r.None?)
        && (rival.Some? && !rereadFault ==> r.Some? && r.value.cols == rival.value)
    {
      if readFault {
        return db, None;
      }
      var found := SelectCard(db, uid);
      if found.Some? {
        card := found;
        return db, found;
      }
      db' := WithRivalCard(db, uid, rival);
      var (afterInsert, inserted) := InsertCard(db', uid, ZeroCounters, insertFault);
      db' := afterInsert;
      if inserted.Err? {
        if inserted.error == Failed(UniqueViolation) {
          var existing := SelectCard(db', uid);
          if !rereadFault && existing.Some? {
            card := existing;
            return db', existing;
          }
        }
        return db', None;
      }
      card := Some(inserted.value);
      r := Some(inserted.value);
    }

    /** The load effect run twice in a row (as React's development mode does
        with effects): the second run finds the card the first one returned,
        returns that same card and writes nothing. */
    method FetchCardTwice(db: Db, uid: UserId, rival: Option<Columns>) returns (db': Db, r1: Option<Card>, r2: Option<Card>)
      requires WellFormed(db)
      modifies this`card
      // with no fault the card is always found or created, and both runs agree
      ensures r1.Some? && r2 == r1 && card == r1
      ensures uid in db.cards ==> r1.value == db.cards[uid] && db' == db
      // only this user's card and the id counter change, each by one step at most
      ensures db' == db.(cards := db.cards[uid := r1.value], nextCardId := db'.nextCardId)
      ensures db'.nextCardId == if uid in db.cards then db.nextCardId else db.nextCardId + 1
      ensures uid !in db.cards && rival.Some? ==> r1.value.cols == rival.value
      ensures uid !in db.cards && rival.None? ==> r1.Some? && r1.value.cols == ZeroCounters
      ensures |db'.cards| <= |db.cards| + 1
    {
      var db1;
      db1, r1 := FetchCard(db, uid, false, rival, None, false);
      // the first run leaves the card in the store, so the second only reads it
      assert r1.Some? && uid in db1.cards && db1.cards[uid] == r1.value;
      assert db1 == db.(cards := db.cards[uid := r1.value], nextCardId := db1.nextCardId);
      db', r2 := FetchCard(db1, uid, false, None, None, false);
      assert db' == db1;
    }
  }
}
