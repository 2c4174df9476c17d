// From a routed OCR event, or a gateway answer, to the one line item a document may contribute.

module Extraction {
  import opened Tables
  import opened Ledger

  datatype Field = Field(name: string, value: string, amount: int64, currency: string, status: string)

  datatype Extracted = Extracted(avgConfidence: real, fields: seq<Field>)

  datatype Verdict = Completed | NeedsReview | Failed

  datatype Message = Message(doc: DocId, status: Verdict, result: Option<Extracted>)

  /** The wire envelope after JSON decoding; doc is external_ref parsed as a document id. */
  datatype Envelope = Envelope(eventId: string, documentId: string, doc: Option<DocId>, eventType: string,
                               data: Option<Extracted>, error: bool)

  /** findField: the first field with the name. */
  function FindField(fields: seq<Field>, name: string): (f: Option<Field>)
    ensures f.None? <==> forall k | 0 <= k < |fields| :: fields[k].name != name
    ensures f.Some? ==> exists k | 0 <= k < |fields| :: FirstNamed(fields, name, k) && fields[k] == f.value
  {
    if fields == [] then None
    else if fields[0].name == name then
      assert FirstNamed(fields, name, 0);
      Some(fields[0])
    else
      var rest := FindField(fields[1..], name);
      FirstOfRest(fields, name);
      rest
  }

  lemma FirstOfRest(fields: seq<Field>, name: string)
    requires fields != [] && fields[0].name != name
    ensures forall k: nat | FirstNamed(fields[1..], name, k) :: FirstNamed(fields, name, k + 1)
  {
  }

  predicate FirstNamed(fields: seq<Field>, name: string, k: nat) {
    k < |fields| && fields[k].name == name && forall j | 0 <= j < k :: fields[j].name != name
  }

  /** moneyField: the total, when it was cleanly extracted. */
  function MoneyField(r: Extracted): Option<Field> {
    var f := FindField(r.fields, "total");
    if f.Some? && f.value.status == "extracted" then f else None
  }

  /** classifyResult. */
  function Classify(r: Extracted): Verdict {
    if MoneyField(r).None? then NeedsReview
    else if r.avgConfidence >= 0.7 then Completed
    else NeedsReview
  }

  /** ParseProcessed after decoding: None dead-letters the record. */
  function ParseProcessed(env: Envelope): Option<Message> {
    if env.eventId == "" || env.documentId == "" || env.doc.None? then None
    else if env.eventType != "document.processed" && env.eventType != "document.routed" then None
    else if env.data.Some? == env.error then None
    else Some(Message(env.doc.value, if env.error then Failed else Classify(env.data.value), env.data))
  }

  /** totalItem. */
  function TotalItem(fileName: string, r: Extracted): Option<Line> {
    var total := MoneyField(r);
    if total.None? || total.value.currency != "IDR" || total.value.amount < 0 then None
    else
      var merchant := FindField(r.fields, "merchant");
      var description := if merchant.Some? && merchant.value.value != "" then merchant.value.value else fileName;
      Some(Line(description, 1, total.value.amount))
  }

  /** The item Handle derives from a message: only a completed one yields any. */
  function MessageItem(fileName: string, msg: Message): Option<Line> {
    if msg.status == Completed && msg.result.Some? then TotalItem(fileName, msg.result.value) else None
  }

  /** The first total field of a result is extracted, in rupiah and not negative. */
  ghost predicate UsableTotal(r: Extracted, amount: int64) {
    exists k: nat :: FirstNamed(r.fields, "total", k) && r.fields[k].status == "extracted"
                     && r.fields[k].currency == "IDR" && r.fields[k].amount == amount && amount >= 0
  }

  /** The item a result is worth: its usable total, once, under the merchant's name or else the file's. */
  ghost predicate ItemOf(fileName: string, r: Extracted, item: Line) {
    && UsableTotal(r, item.amount) && item.quantity == 1
    && ((exists k: nat :: FirstNamed(r.fields, "merchant", k) && r.fields[k].value != "")
        ==> exists k: nat :: FirstNamed(r.fields, "merchant", k) && r.fields[k].value == item.description)
    && ((forall k: nat | FirstNamed(r.fields, "merchant", k) :: r.fields[k].value == "")
        ==> item.description == fileName)
  }

  lemma FirstNamedOnce(fields: seq<Field>, name: string, j: nat, k: nat)
    requires FirstNamed(fields, name, j) && FirstNamed(fields, name, k)
    ensures j == k
  {
  }

  /** findField finds the one first field. */
  lemma Found(fields: seq<Field>, name: string) returns (j: nat)
    ensures var f := FindField(fields, name);
            && (f.Some? ==> FirstNamed(fields, name, j) && fields[j] == f.value)
            && (f.Some? ==> forall k: nat | FirstNamed(fields, name, k) :: k == j)
            && (f.None? ==> forall k: nat :: !FirstNamed(fields, name, k))
  {
    var f := FindField(fields, name);
    j := 0;
    if f.Some? {
      j :| j < |fields| && FirstNamed(fields, name, j) && fields[j] == f.value;
      forall k: nat | FirstNamed(fields, name, k) ensures k == j {
        FirstNamedOnce(fields, name, j, k);
      }
    }
  }

  /** A result yields an item iff its total is usable, and then that item, which passes the row checks. */
  lemma {:induction false} TotalItemMeaning(fileName: string, r: Extracted)
    ensures TotalItem(fileName, r).Some? <==> exists amount :: UsableTotal(r, amount)
    ensures TotalItem(fileName, r).Some? ==> ItemOf(fileName, r, TotalItem(fileName, r).value)
                                             && RowAllowed(TotalItem(fileName, r).value)
  {
    var i := Found(r.fields, "total");
    var j := Found(r.fields, "merchant");
    var item := TotalItem(fileName, r);
    hide FindField, FirstNamed;
    if item.Some? {
      assert UsableTotal(r, item.value.amount);
    }
  }

  /** A record is a message iff it names its event and its document, is of one of the two types, and carries either
      data or an error; it failed iff it carries the error, and is complete iff the first total was extracted with an
      average confidence of at least 0.7. */
  lemma {:induction false} ParseMeaning(env: Envelope)
    ensures ParseProcessed(env).Some?
            <==> && env.eventId != "" && env.documentId != "" && env.doc.Some?
                 && env.eventType in {"document.processed", "document.routed"} && (env.data.Some? <==> !env.error)
    ensures ParseProcessed(env).Some? ==>
              var m := ParseProcessed(env).value;
              && env.doc == Some(m.doc) && m.result == env.data && (m.status == Failed <==> env.error)
              && (m.status == Completed
                  <==> env.data.Some? && env.data.value.avgConfidence >= 0.7
                       && exists k: nat :: FirstNamed(env.data.value.fields, "total", k)
                                           && env.data.value.fields[k].status == "extracted")
  {
    if env.data.Some? {
      var i := Found(env.data.value.fields, "total");
    }
    hide FindField;
  }

  /** On the event path a document contributes an item exactly when the event carries a result with a usable total and
      an average confidence of at least 0.7. */
  lemma {:induction false} EventItem(env: Envelope, fileName: string)
    requires ParseProcessed(env).Some?
    ensures var item := MessageItem(fileName, ParseProcessed(env).value);
            && (item.Some? <==> env.data.Some? && env.data.value.avgConfidence >= 0.7
                                && exists amount :: UsableTotal(env.data.value, amount))
            && (item.Some? ==> ItemOf(fileName, env.data.value, item.value))
  {
    if env.data.Some? {
      TotalItemMeaning(fileName, env.data.value);
    }
    hide ItemOf, FindField, UsableTotal;
  }
}
