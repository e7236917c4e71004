/** The staff page that publishes promotions: a form that validates, uploads
    an optional image, inserts the promotion and resets itself, and a history
    of the 20 newest promotions kept up to date by refetching and by realtime
    insert notifications. */
module StaffMessages {
  import opened Common
  import opened Store

  /** How many promotions the history holds. */
  const HistoryLimit: nat := 20

  const TitleRequired := "Escribe un título."
  const BodyRequired := "Escribe una descripción."
  const UploadError := "Error subiendo la imagen."
  const InsertError := "Error enviando promoción."
  const Sent := "¡Promoción enviada correctamente!"

  /** The first `HistoryLimit` entries: `.slice(0, 20)`, and also what
      `.order("created_at", desc).limit(20)` returns of a newest-first table. */
  function Newest(ps: seq<Promotion>): (r: seq<Promotion>)
    ensures |r| <= HistoryLimit && r <= ps
    ensures |r| == if |ps| < HistoryLimit then |ps| else HistoryLimit
  {
    if |ps| <= HistoryLimit then ps else ps[..HistoryLimit]
  }

  /** The realtime handler's update: `[payload.new, ...prev].slice(0, 20)`. */
  function PrependCapped(item: Promotion, prev: seq<Promotion>): (r: seq<Promotion>)
    ensures 1 <= |r| <= HistoryLimit && r[0] == item
    ensures r[1..] == prev[..if |prev| < HistoryLimit - 1 then |prev| else HistoryLimit - 1]
  {
    Newest([item] + prev)
  }

  /** Realtime and refetch agree: prepending the new promotion to a fetched
      history gives what a fetch after the insert returns. */
  lemma PrependMatchesRefetch(item: Promotion, ps: seq<Promotion>)
    ensures PrependCapped(item, Newest(ps)) == Newest([item] + ps)
  {
    var prev := Newest(ps);
    var k := if |prev| < HistoryLimit - 1 then |prev| else HistoryLimit - 1;
    assert PrependCapped(item, prev) == [item] + prev[..k];
    if |ps| >= HistoryLimit - 1 {
      assert prev[..k] == ps[..HistoryLimit - 1];
      assert Newest([item] + ps) == [item] + ps[..HistoryLimit - 1];
    }
  }

  /** `items` applied in arrival order by the realtime handler. */
  function AfterInserts(history: seq<Promotion>, items: seq<Promotion>): seq<Promotion> {
    if items == [] then history
    else PrependCapped(items[|items| - 1], AfterInserts(history, items[..|items| - 1]))
  }

  function Reversed(items: seq<Promotion>): (r: seq<Promotion>)
    ensures |r| == |items|
    ensures forall k :: 0 <= k < |items| ==> r[k] == items[|items| - 1 - k]
  {
    if items == [] then [] else [items[|items| - 1]] + Reversed(items[..|items| - 1])
  }

  /** Whatever arrives, the history holds the newest 20 of everything seen,
      newest first: the arrivals in reverse, then what was there before. */
  lemma {:induction false} InsertsKeepNewest(history: seq<Promotion>, items: seq<Promotion>)
    requires |history| <= HistoryLimit
    ensures AfterInserts(history, items) == Newest(Reversed(items) + history)
  {
    if items != [] {
      var init := items[..|items| - 1];
      var last := items[|items| - 1];
      var rest := Reversed(init) + history;
      InsertsKeepNewest(history, init);
      PrependMatchesRefetch(last, rest);
      assert Reversed(items) + history == [last] + rest;
      assert AfterInserts(history, items) == PrependCapped(last, Newest(rest));
    }
  }

  /** `price || null`: an empty price is stored as null. */
  function PriceColumn(price: string): (r: Option<string>)
    ensures r.None? <==> price == ""
    ensures r.Some? ==> r.value == price
  {
    if price == "" then None else Some(price)
  }

  /** A file picked in the form. */
  datatype Image = Image(name: string, mimeType: string)

  /** `image_url`: null without an image, otherwise the public URL if it is
      truthy and null if not. */
  function ImageColumn(image: Option<Image>, publicUrl: Option<string>): (r: Option<string>)
    ensures image.None? ==> r.None?
    ensures r.Some? ==> publicUrl.Some? && r.value == publicUrl.value && r.value != ""
    ensures image.Some? && publicUrl.Some? && publicUrl.value != "" ==> r == publicUrl
  {
    if image.Some? && publicUrl.Some? && publicUrl.value != "" then publicUrl else None
  }

  /** `insert(promotion)` on `promotions`: the new row is the newest. */
  function InsertPromotion(db: Db, p: Promotion, fault: bool): (res: (Db, bool))
    ensures res.1 <==> !fault
    ensures res.0 == if fault then db else db.(promotions := [p] + db.promotions)
  {
    if fault then (db, false) else (db.(promotions := [p] + db.promotions), true)
  }

  /** The page's state. */
  class MessagesForm {
    var title: string
    var price: string
    var body: string
    var image: Option<Image>
    var success: string
    var error: string
    var history: seq<Promotion>
    var loadingHistory: bool

    /** The history never holds more than `HistoryLimit` promotions. */
    ghost predicate Valid()
      reads this
    {
      |history| <= HistoryLimit
    }

    constructor ()
      ensures Valid()
      ensures title == "" && price == "" && body == "" && image.None?
      ensures success == "" && error == "" && history == [] && loadingHistory
    {
      title, price, body, image := "", "", "", None;
      success, error, history, loadingHistory := "", "", [], true;
    }

    /** `fetchHistory`: on error the history is kept. */
    method FetchHistory(db: Db, fault: bool)
      requires Valid()
      modifies this`history, this`loadingHistory
      ensures Valid() && !loadingHistory
      ensures history == if fault then old(history) else Newest(db.promotions)
    {
      loadingHistory := true;
      if fault {
        loadingHistory := false;
        return;
      }
      history := Newest(db.promotions);
      loadingHistory := false;
    }

    /** The realtime insert handler. */
    method OnInsert(item: Promotion)
      requires Valid()
      modifies this`history
      ensures Valid()
      ensures history == PrependCapped(item, old(history))
    {
      history := Newest([item] + history);
    }

    /** `handleSend`. The upload's outcome and URL, the insert's outcome and
        the refetch's outcome are inputs; `uploaded` says whether an upload
        was attempted and `stored` whether the promotion was inserted. */
    method HandleSend(db: Db, uploadFault: bool, publicUrl: Option<string>, insertFault: bool, historyFault: bool)
      returns (db': Db, uploaded: bool, stored: bool)
      requires Valid()
      modifies this`title, this`price, this`body, this`image, this`success, this`error,
               this`history, this`loadingHistory
      ensures Valid()
      // a blank title is refused first, then a blank body; nothing is sent
      ensures Trim(old(title)) == "" ==> error == TitleRequired
      ensures Trim(old(title)) != "" && Trim(old(body)) == "" ==> error == BodyRequired
      ensures Trim(old(title)) == "" || Trim(old(body)) == "" ==> !uploaded && !stored
      ensures Trim(old(title)) != "" && Trim(old(body)) != "" ==> (uploaded <==> old(image).Some?)
      // a failed upload stops before the insert
      ensures uploaded && uploadFault ==> error == UploadError && !stored
      ensures Trim(old(title)) != "" && Trim(old(body)) != "" && !(uploaded && uploadFault) ==>
        && (stored <==> !insertFault)
        && (insertFault ==> error == InsertError)
      ensures stored ==>
        var record := Promotion(old(title), old(body), PriceColumn(old(price)), ImageColumn(old(image), publicUrl));
        && db' == db.(promotions := [record] + db.promotions)
        && success == Sent && error == ""
        && (!historyFault ==> history == Newest(db'.promotions) && history[0] == record)
      // the form is reset exactly when the promotion was stored
      ensures stored ==> title == "" && body == "" && price == "" && image.None?
      ensures !stored ==> db' == db && success == "" && history == old(history)
      ensures !stored ==> title == old(title) && body == old(body) && price == old(price) && image == old(image)
      // the refresh after a stored promotion ends loading; a failed one keeps the history
      ensures stored ==> !loadingHistory
      ensures stored && historyFault ==> history == old(history)
      ensures !stored ==> loadingHistory == old(loadingHistory)
    {
      success, error := "", "";
      db', uploaded, stored := db, false, false;

      if Trim(title) == "" {
        error := TitleRequired;
        return;
      }
      if Trim(body) == "" {
        error := BodyRequired;
        return;
      }

      db', uploaded, stored := Publish(db, uploadFault, publicUrl, insertFault, historyFault);
    }

    /** The part of `handleSend` after validation: upload, insert, reset. */
    method Publish(db: Db, uploadFault: bool, publicUrl: Option<string>, insertFault: bool, historyFault: bool)
      returns (db': Db, uploaded: bool, stored: bool)
      requires Valid() && success == ""
      modifies this`title, this`price, this`body, this`image, this`success, this`error,
               this`history, this`loadingHistory
      ensures Valid()
      ensures uploaded <==> old(image).Some?
      ensures uploaded && uploadFault ==> error == UploadError && !stored
      ensures !(uploaded && uploadFault) ==> (stored <==> !insertFault) && (insertFault ==> error == InsertError)
      ensures stored ==>
        var record := Promotion(old(title), old(body), PriceColumn(old(price)), ImageColumn(old(image), publicUrl));
        && db' == db.(promotions := [record] + db.promotions)
        && success == Sent && error == old(error)
        && (!historyFault ==> history == Newest(db'.promotions) && history[0] == record)
        && title == "" && body == "" && price == "" && image.None?
      ensures !stored ==> db' == db && success == "" && history == old(history)
      ensures !stored ==> title == old(title) && body == old(body) && price == old(price) && image == old(image)
      // the refresh after a stored promotion ends loading; a failed one keeps the history
      ensures stored ==> !loadingHistory
      ensures stored && historyFault ==> history == old(history)
      ensures !stored ==> loadingHistory == old(loadingHistory)
    {
      db', uploaded, stored := db, false, false;
      var imageUrl: Option<string> := None;
      if image.Some? {
        uploaded := true;
        if uploadFault {
          error := UploadError;
          return;
        }
        imageUrl := if publicUrl.Some? && publicUrl.value != "" then publicUrl else None;
      }

      var record := Promotion(title, body, if price == "" then None else Some(price), imageUrl);
      var (afterInsert, inserted) := InsertPromotion(db, record, insertFault);
      if !inserted {
        error := InsertError;
        return;
      }
      db', stored := afterInsert, true;

      success := Sent;
      title, body, price, image := "", "", "", None;
      FetchHistory(db', historyFault);
    }
  }
}
