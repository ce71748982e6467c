/**
 * The application services: transactions (create, read, list, export), credit cards
 * and categories. Each service works through one store; a lookup that finds nothing
 * raises the entity's not-found error before any write.
 */
module Services {
  import opened Outcomes
  import opened Dates
  import opened Domain
  import opened Requests
  import opened Stores
  import opened Handlers
  import opened Transforms

  const TransactionMissing: string := "Transaction not found."
  const CardMissing: string := "Credit card not found."
  const CategoryMissing: string := "Category not found."
  const NoneFound: string := "No transactions were found for this filters!"
  const UnexpectedPrefix: string := "An unexpected error occurred: "

  // ---------------------------------------------------------------- transactions

  /** Only a credit purchase that is not fixed is split into installments. */
  predicate RequiresInstallmentHandling(t: TransactionCreate) {
    t.kind == Credit && !t.isFixed
  }

  /** The outcome of `create_transaction` against the table `records`. */
  function Created(records: map<string, Transaction>, t: TransactionCreate, newId: string, freshOwner: string,
                   fault: Option<Exception>): (r: Result<Transaction>)
    requires WellTyped(t)
    ensures fault.Some? ==> r.Err?
    ensures r.Ok? ==> newId !in records && r.value.id == newId && r.value.userId == t.userId.GetOr(freshOwner)
    ensures r.Ok? && !RequiresInstallmentHandling(t) ==> r.value.installments == []
    ensures r.Ok? && RequiresInstallmentHandling(t) ==> InstallmentPlan(t).Ok? && r.value.installments == InstallmentPlan(t).value
  {
    if RequiresInstallmentHandling(t) then Processed(records, t, newId, freshOwner, fault)
    else
      var kw := DumpExcludeNone(t);
      if kw.extra != [] then Err(TypeError(InvalidKeyword(kw.extra[0])))
      else Insert(records, kw.fields, [], newId, freshOwner, fault)
  }

  /** The store calls `create_transaction` makes. */
  function CreateCalls(t: TransactionCreate, r: Result<Transaction>): seq<TransactionCall>
    requires WellTyped(t)
  {
    if RequiresInstallmentHandling(t) then ProcessCalls(t, r) else [CreateCall(DumpExcludeNone(t))]
  }

  /** The page the store hands back for a listing: the items and the page figures. */
  datatype Page = Page(items: seq<Transaction>, page: int, pages: int, size: int, total: int)

  /** `ExcelExporter.export`: any failure of the spreadsheet writer becomes an Excel generation error. */
  function ExcelExport(frame: Frame, write: Frame -> Result<seq<bv8>>): (r: Result<seq<bv8>>)
    ensures r.Err? ==> r.error.ExcelGenerationError?
    ensures write(frame).Ok? ==> r == write(frame)
  {
    match write(frame)
    case Ok(bytes) => Ok(bytes)
    case Err(e) => Err(ExcelGenerationError("Error generating Excel file: " + Str(e)))
  }

  /** The three export errors pass through; any other becomes a generic error naming it. */
  function Classify(e: Exception): (r: Exception)
    ensures r.NoTransactionsFound? || r.DataTransformationError? || r.ExcelGenerationError? || r.UnexpectedError?
    ensures e.NoTransactionsFound? || e.DataTransformationError? || e.ExcelGenerationError? ==> r == e
    ensures !(e.NoTransactionsFound? || e.DataTransformationError? || e.ExcelGenerationError?) ==> r.UnexpectedError?
  {
    if e.NoTransactionsFound? || e.DataTransformationError? || e.ExcelGenerationError? then e
    else UnexpectedError(UnexpectedPrefix + Str(e))
  }

  /** The table the export writes: the six columns and one row per transaction, in order. */
  function ExportFrame(items: seq<LoadedTransaction>): (f: Frame)
    ensures f.columns == Columns && |f.rows| == |items|
    ensures forall i :: 0 <= i < |items| ==> f.rows[i] == RowOf(ExportItemOf(items[i]))
  {
    Frame(Columns, MapSeq(RowOf, MapSeq(ExportItemOf, items)))
  }

  /** The outcome of `export_transactions` given what the filtered query returned. */
  function Exported(fetched: Result<seq<LoadedTransaction>>, write: Frame -> Result<seq<bv8>>): (r: Result<seq<bv8>>)
    ensures fetched == Ok([]) ==> r == Err(NoTransactionsFound(NoneFound))
    ensures fetched.Err? ==> r == Err(Classify(fetched.error))
    ensures r.Err? ==>
      r.error.NoTransactionsFound? || r.error.DataTransformationError? || r.error.ExcelGenerationError?
      || r.error.UnexpectedError?
  {
    match fetched
    case Err(e) => Err(Classify(e))
    case Ok(items) =>
      if items == [] then Err(NoTransactionsFound(NoneFound))
      else
        match Transformed(Mapped(Some(TransactionsResponse(items).data)))
        case Err(e) => Err(Classify(e))
        case Ok(frame) =>
          match ExcelExport(frame, write)
          case Err(e) => Err(Classify(e))
          case Ok(bytes) => Ok(bytes)
  }

  /** `TransactionService`: transactions through the transaction store. */
  class TransactionService {
    const store: TransactionStore

    constructor(store: TransactionStore)
      ensures this.store == store
    {
      this.store := store;
    }

    /**
     * `_handle_transaction`: a credit purchase that is not fixed goes through the
     * installment handler; every other request is one plain create of its supplied fields.
     */
    method HandleTransaction(t: TransactionCreate, newId: string, freshOwner: string, fault: Option<Exception>)
      returns (r: Result<Transaction>)
      requires WellTyped(t) && store.Valid()
      modifies store
      ensures store.Valid()
      ensures r == Created(old(store.records), t, newId, freshOwner, fault)
      ensures store.records == Stored(old(store.records), r)
      ensures store.log == old(store.log) + CreateCalls(t, r)
    {
      if RequiresInstallmentHandling(t) {
        var handler := new CreditCardTransactionHandler(store);
        var _, processed := handler.ProcessTransaction(t, newId, freshOwner, fault);
        r := processed;
      } else {
        r := store.Create(DumpExcludeNone(t), newId, freshOwner, fault);
      }
    }

    /** `create_transaction`: the stored transaction as a response. */
    method CreateTransaction(t: TransactionCreate, newId: string, freshOwner: string, fault: Option<Exception>)
      returns (r: Result<Response<TransactionView>>)
      requires WellTyped(t) && store.Valid()
      modifies store
      ensures store.Valid()
      ensures r == (match Created(old(store.records), t, newId, freshOwner, fault)
                    case Ok(x) => Ok(TransactionResponse(x))
                    case Err(e) => Err(e))
      ensures store.records == Stored(old(store.records), Created(old(store.records), t, newId, freshOwner, fault))
      ensures store.log == old(store.log) + CreateCalls(t, Created(old(store.records), t, newId, freshOwner, fault))
    {
      var created := HandleTransaction(t, newId, freshOwner, fault);
      match created {
        case Ok(x) => r := Ok(TransactionResponse(x));
        case Err(e) => r := Err(e);
      }
    }

    /** `get_transaction`: visible only to its owner; otherwise not found. */
    function GetTransaction(id: string, owner: string): (r: Result<Response<TransactionView>>)
      reads this, store
      ensures r.Ok? <==> id in store.records && store.records[id].userId == owner
      ensures r.Ok? ==> r.value.data == TransactionMapper(store.records[id]) && r.value.meta.None?
      ensures r.Err? ==> r.error == TransactionNotFound(TransactionMissing)
    {
      match store.GetById(id, owner)
      case None => Err(TransactionNotFound(TransactionMissing))
      case Some(x) => Ok(TransactionResponse(x))
    }

    /** `get_transactions`: the page's items mapped in order, its figures copied. */
    function GetTransactions(paged: Result<Page>): (r: Result<Response<seq<TransactionView>>>)
      ensures paged.Err? ==> r == Err(paged.error)
      ensures paged.Ok? ==> r.Ok?
      ensures paged.Ok? ==>
        r.value.meta == Some(PaginationMeta(paged.value.page, paged.value.pages, paged.value.size, paged.value.total))
      ensures paged.Ok? ==> |r.value.data| == |paged.value.items|
      ensures paged.Ok? ==>
        forall i :: 0 <= i < |paged.value.items| ==> r.value.data[i] == TransactionMapper(paged.value.items[i])
    {
      match paged
      case Err(e) => Err(e)
      case Ok(p) => Ok(PaginatedTransactionResponse(p.items, p.page, p.pages, p.size, p.total))
    }

    /**
     * `export_transactions`: an empty result is refused; otherwise the writer gets one
     * row per transaction, in order, and its bytes are returned. A failure of the query
     * or of the writer is classified, so every failure has one of four classes.
     */
    method ExportTransactions(fetched: Result<seq<LoadedTransaction>>, write: Frame -> Result<seq<bv8>>)
      returns (r: Result<seq<bv8>>)
      ensures fetched == Ok([]) ==> r == Err(NoTransactionsFound(NoneFound))
      ensures fetched.Err? ==> r == Err(Classify(fetched.error))
      ensures fetched.Ok? && fetched.value != [] ==>
        r == ExcelExport(ExportFrame(fetched.value), write)
      ensures fetched.Ok? && fetched.value != [] && write(ExportFrame(fetched.value)).Ok? ==>
        r == write(ExportFrame(fetched.value))
      ensures r.Err? ==>
        r.error.NoTransactionsFound? || r.error.DataTransformationError? || r.error.ExcelGenerationError?
        || r.error.UnexpectedError?
      ensures r == Exported(fetched, write)
    {
      ExportOutcomes(fetched, write);
      if fetched.Ok? && fetched.value != [] {
        assert Frame(Columns, MapSeq(RowOf, MapSeq(ExportItemOf, fetched.value))) == ExportFrame(fetched.value);
      }
      if fetched.Err? {
        return Err(Classify(fetched.error));
      }
      var items := fetched.value;
      if items == [] {
        return Err(Classify(NoTransactionsFound(NoneFound)));
      }
      var frame := TransformData(Mapped(Some(TransactionsResponse(items).data)));
      if frame.Err? {
        return Err(Classify(frame.error));
      }
      var file := ExcelExport(frame.value, write);
      if file.Err? {
        return Err(Classify(file.error));
      }
      r := Ok(file.value);
    }
  }

  /** A fixed credit transaction is a plain create and gets no installments. */
  lemma FixedCreditIsPlain(records: map<string, Transaction>, t: TransactionCreate, newId: string,
                           freshOwner: string, fault: Option<Exception>)
    requires WellTyped(t) && t.kind == Credit && t.isFixed && t.installmentsNumber.None?
    ensures CreateCalls(t, Created(records, t, newId, freshOwner, fault)) == [CreateCall(Kwargs(DomainFields(t), []))]
    ensures Created(records, t, newId, freshOwner, fault).Ok? ==>
      Created(records, t, newId, freshOwner, fault).value.installments == []
  {
  }

  /**
   * The handler runs exactly for credit purchases that are not fixed: only then does the
   * store see a create with installments.
   */
  lemma HandlerIffCredit(t: TransactionCreate, r: Result<Transaction>)
    requires WellTyped(t)
    ensures (exists f, p :: CreateWithInstallmentsCall(f, p) in CreateCalls(t, r))
            ==> RequiresInstallmentHandling(t)
    ensures RequiresInstallmentHandling(t) && InstallmentPlan(t).Ok? ==>
      CreateWithInstallmentsCall(DomainFields(t), InstallmentPlan(t).value) in CreateCalls(t, r)
  {
    if !RequiresInstallmentHandling(t) {
      assert CreateCalls(t, r) == [CreateCall(DumpExcludeNone(t))];
    }
  }

  /**
   * A plain create stores one new row with the request's fields and no installments; a
   * request that still carries an installment count is refused by the row constructor.
   */
  lemma PlainCreate(records: map<string, Transaction>, t: TransactionCreate, newId: string,
                    freshOwner: string, fault: Option<Exception>)
    requires WellTyped(t) && !RequiresInstallmentHandling(t)
    ensures t.installmentsNumber.Some? ==>
      Created(records, t, newId, freshOwner, fault) == Err(TypeError(InvalidKeyword("installments_number")))
    ensures t.installmentsNumber.None? && fault.None? && newId !in records ==>
      var r := Created(records, t, newId, freshOwner, fault);
      r.Ok? && r.value.id == newId && r.value.installments == []
      && FieldsOf(r.value) == DomainFields(t).(userId := Some(t.userId.GetOr(freshOwner)))
  {
  }

  /**
   * A credit purchase is stored with its installment plan; on any failure nothing is
   * stored, the store is rolled back exactly once and the failure is the one that arose.
   */
  lemma CreditPurchase(records: map<string, Transaction>, t: TransactionCreate, newId: string,
                       freshOwner: string, fault: Option<Exception>)
    requires WellTyped(t) && RequiresInstallmentHandling(t)
    ensures var r := Created(records, t, newId, freshOwner, fault);
      (r.Ok? ==> InstallmentPlan(t).Ok? && r.value.installments == InstallmentPlan(t).value
                 && FieldsOf(r.value) == DomainFields(t).(userId := Some(t.userId.GetOr(freshOwner)))
                 && Count(CreateCalls(t, r), RollbackCall) == 0)
      && (r.Err? ==> Stored(records, r) == records && Count(CreateCalls(t, r), RollbackCall) == 1
                     && r.error == (if InstallmentPlan(t).Err? then InstallmentPlan(t).error
                                    else if fault.Some? then fault.value else IntegrityError(DuplicateKey)))
  {
    var r := Created(records, t, newId, freshOwner, fault);
    var first := if InstallmentPlan(t).Ok? then [CreateWithInstallmentsCall(DomainFields(t), InstallmentPlan(t).value)] else [];
    var last := if r.Err? then [RollbackCall] else [];
    CountAppend(first, last, RollbackCall);
    assert Count(first, RollbackCall) == 0 by {
      if first != [] {
        assert first[1..] == [];
      }
    }
    if r.Err? {
      assert last[1..] == [];
    }
  }

  /**
   * A credit purchase that left the date key out passes validation but cannot be split:
   * with more than one installment the month step fails on the absent date, with one the
   * installment itself is refused for lacking a date. Nothing is stored either way.
   */
  lemma UndatedCreditPurchaseFails(records: map<string, Transaction>, t: TransactionCreate, newId: string,
                                   freshOwner: string, fault: Option<Exception>)
    requires DateValid(t) && Validate(t).Ok?
    requires t.kind == Credit && !t.isFixed && t.date.None?
    ensures !t.dateSent
    ensures Created(records, t, newId, freshOwner, fault) ==
      (if InstallmentCount(t) > 1 then Err(TypeError(NoDateToAdvance))
       else Err(ValidationError([ErrorDetail("date", DateMissing)])))
    ensures Stored(records, Created(records, t, newId, freshOwner, fault)) == records
  {
    AcceptedIsWellTyped(t);
  }

  /** A stored transaction is found again by its id and owner, and by no one else. */
  lemma CreatedIsVisibleToOwner(records: map<string, Transaction>, t: TransactionCreate, newId: string,
                                freshOwner: string, fault: Option<Exception>, other: string)
    requires WellTyped(t) && Created(records, t, newId, freshOwner, fault).Ok?
    ensures var x := Created(records, t, newId, freshOwner, fault).value;
      var after := Stored(records, Created(records, t, newId, freshOwner, fault));
      newId in after && after[newId] == x && x.userId == t.userId.GetOr(freshOwner)
      && (other != x.userId ==> after[newId].userId != other)
      && (forall id :: id in records ==> id in after && after[id] == records[id])
  {
  }

  /** An empty result stops the export before the transformation or the writer runs. */
  lemma ExportEmpty(write: Frame -> Result<seq<bv8>>, write': Frame -> Result<seq<bv8>>)
    ensures Exported(Ok([]), write) == Err(NoTransactionsFound(NoneFound))
    ensures Exported(Ok([]), write) == Exported(Ok([]), write')
  {
  }

  /** Classification keeps the three export errors and wraps every other one with the prefix. */
  lemma ClassifyRule(e: Exception)
    ensures e.NoTransactionsFound? || e.DataTransformationError? || e.ExcelGenerationError? ==> Classify(e) == e
    ensures !(e.NoTransactionsFound? || e.DataTransformationError? || e.ExcelGenerationError?) ==>
      Classify(e) == UnexpectedError(UnexpectedPrefix + Str(e))
  {
  }

  /**
   * A failed export fails with one of the three export errors or a generic one; with a
   * non-empty result every writer failure surfaces as an Excel generation error, and the
   * writer is handed one row per transaction, in order.
   */
  lemma ExportOutcomes(fetched: Result<seq<LoadedTransaction>>, write: Frame -> Result<seq<bv8>>)
    ensures Exported(fetched, write).Err? ==>
      var e := Exported(fetched, write).error;
      e.NoTransactionsFound? || e.DataTransformationError? || e.ExcelGenerationError? || e.UnexpectedError?
    ensures fetched.Ok? && fetched.value != [] ==>
      var items := fetched.value;
      var frame := Frame(Columns, MapSeq(RowOf, MapSeq(ExportItemOf, items)));
      Exported(fetched, write) == ExcelExport(frame, write)
      && |frame.rows| == |items|
      && forall i :: 0 <= i < |items| ==> frame.rows[i] == RowOf(ExportItemOf(items[i]))
  {
  }

  /** A failing query surfaces as a generic error naming the original failure. */
  lemma ExportQueryFailure(e: Exception, write: Frame -> Result<seq<bv8>>)
    requires e.StoreFailure?
    ensures Exported(Err(e), write) == Err(UnexpectedError(UnexpectedPrefix + e.message))
  {
  }

  /** The message Python raises for a keyword argument that the callee does not declare. */
  function UnexpectedKeyword(callee: string, name: string): string {
    callee + "() got an unexpected keyword argument '" + name + "'"
  }

  /** What the listing query raises as written: the repository's `get_all` has no `filters` parameter. */
  const ListingFailure: Exception := TypeError(UnexpectedKeyword("TransactionRepository.get_all", "filters"))

  /**
   * As written, every listing fails before a page exists, and every export fails with a
   * generic error naming that failure, whatever the user's transactions are.
   */
  lemma ListingAsWrittenFails(write: Frame -> Result<seq<bv8>>)
    ensures Exported(Err(ListingFailure), write)
            == Err(UnexpectedError(UnexpectedPrefix + UnexpectedKeyword("TransactionRepository.get_all", "filters")))
    ensures Exported(Err(ListingFailure), write).Err? && !Exported(Err(ListingFailure), write).error.NoTransactionsFound?
  {
  }

  // ---------------------------------------------------------------- credit cards

  /** `get_credit_card` against the table `cards`. */
  function Lookup(cards: map<string, CreditCard>, id: string, owner: string): (r: Result<CreditCard>)
    ensures r.Ok? <==> id in cards && cards[id].userId == owner
    ensures r.Ok? ==> r.value == cards[id]
    ensures r.Err? ==> r.error == CreditCardNotFound(CardMissing)
  {
    if id in cards && cards[id].userId == owner then Ok(cards[id]) else Err(CreditCardNotFound(CardMissing))
  }

  /** `update_credit_card`: look the card up, then set the supplied fields. */
  function Updated(cards: map<string, CreditCard>, id: string, owner: string, p: CardPatch,
                   fault: Option<Exception>): (r: Result<CreditCard>)
    ensures r.Ok? <==> id in cards && cards[id].userId == owner && fault.None?
    ensures r.Ok? ==> r.value == Patched(cards[id], p)
    ensures (id !in cards || cards[id].userId != owner) ==> r == Err(CreditCardNotFound(CardMissing))
    ensures id in cards && cards[id].userId == owner && fault.Some? ==> r == Err(fault.value)
  {
    match Lookup(cards, id, owner)
    case Err(e) => Err(e)
    case Ok(c) => if fault.Some? then Err(fault.value) else Ok(Patched(c, p))
  }

  /** `delete_credit_card`: look the card up, then delete it and return it. */
  function Deleted(cards: map<string, CreditCard>, id: string, owner: string, fault: Option<Exception>)
    : (r: Result<CreditCard>)
    ensures r.Ok? <==> id in cards && cards[id].userId == owner && fault.None?
    ensures r.Ok? ==> r.value == cards[id]
    ensures (id !in cards || cards[id].userId != owner) ==> r == Err(CreditCardNotFound(CardMissing))
    ensures id in cards && cards[id].userId == owner && fault.Some? ==> r == Err(fault.value)
  {
    match Lookup(cards, id, owner)
    case Err(e) => Err(e)
    case Ok(c) => if fault.Some? then Err(fault.value) else Ok(c)
  }

  /** The table after `delete_credit_card`: the looked-up card is gone when the delete succeeded. */
  function Remaining(cards: map<string, CreditCard>, id: string, owner: string, fault: Option<Exception>)
    : (after: map<string, CreditCard>)
    ensures Deleted(cards, id, owner, fault).Ok? ==> id !in after
    ensures Deleted(cards, id, owner, fault).Err? ==> after == cards
    ensures forall k :: k in cards && k != id ==> k in after && after[k] == cards[k]
    ensures forall k :: k in after ==> k in cards && after[k] == cards[k]
  {
    if Deleted(cards, id, owner, fault).Ok? then cards - {id} else cards
  }

  /**
   * `get_credit_card` as the application copy writes it: the id goes to the repository
   * under the name `credit_card_id`, which `get_by_id` does not declare.
   */
  function GetCreditCardAsWritten(cards: map<string, CreditCard>, id: string, owner: string): (r: Result<CreditCard>)
    ensures r.Err? && r.error.TypeError?
  {
    Err(TypeError(UnexpectedKeyword("CreditCardRepository.get_by_id", "credit_card_id")))
  }

  /** Even the owner's own card is not returned by the lookup as written, where `Lookup` returns it. */
  lemma CardLookupAsWrittenFails(cards: map<string, CreditCard>, id: string, owner: string)
    requires id in cards && cards[id].userId == owner
    ensures Lookup(cards, id, owner) == Ok(cards[id])
    ensures GetCreditCardAsWritten(cards, id, owner) != Lookup(cards, id, owner)
  {
  }

  /** `CreditCardService`: credit cards through the credit-card store. */
  class CreditCardService {
    const store: CreditCardStore

    constructor(store: CreditCardStore)
      ensures this.store == store
    {
      this.store := store;
    }

    function GetCreditCard(id: string, owner: string): (r: Result<CreditCard>)
      reads this, store
      ensures r == Lookup(store.cards, id, owner)
    {
      match store.GetById(id, owner)
      case None => Err(CreditCardNotFound(CardMissing))
      case Some(c) => Ok(c)
    }

    /** `get_credit_cards`: the owner's cards as the store lists them. */
    method GetCreditCards(owner: string) returns (r: seq<CreditCard>)
      ensures Distinct(r)
      ensures forall c :: c in r <==> c in store.cards.Values && c.userId == owner
    {
      r := store.GetAll(owner);
    }

    method CreateCreditCard(f: CardFields, newId: string, freshOwner: string, fault: Option<Exception>)
      returns (r: Result<CreditCard>)
      requires store.Valid()
      modifies store
      ensures store.Valid()
      ensures r.Ok? <==> fault.None? && newId !in old(store.cards)
      ensures r.Ok? ==> r.value == CreditCard(newId, f.userId.GetOr(freshOwner), f.name, f.limit, f.invoiceStartDay)
      ensures store.cards == (if r.Ok? then old(store.cards)[newId := r.value] else old(store.cards))
    {
      r := store.Create(f, newId, freshOwner, fault);
    }

    /** A missing card stops the update before the store is written to. */
    method UpdateCreditCard(id: string, owner: string, p: CardPatch, fault: Option<Exception>)
      returns (r: Result<CreditCard>)
      requires store.Valid()
      modifies store
      ensures store.Valid()
      ensures r == Updated(old(store.cards), id, owner, p, fault)
      ensures store.cards == (if r.Ok? then old(store.cards)[id := r.value] else old(store.cards))
      ensures store.log == old(store.log) + (if Lookup(old(store.cards), id, owner).Ok? then [CardUpdateCall(id, p)] else [])
    {
      var found := GetCreditCard(id, owner);
      if found.Err? {
        return Err(found.error);
      }
      r := store.Update(found.value, p, fault);
    }

    /** A missing card stops the delete before the store is written to. */
    method DeleteCreditCard(id: string, owner: string, fault: Option<Exception>) returns (r: Result<CreditCard>)
      requires store.Valid()
      modifies store
      ensures store.Valid()
      ensures r == Deleted(old(store.cards), id, owner, fault)
      ensures store.cards == Remaining(old(store.cards), id, owner, fault)
      ensures store.log == old(store.log) + (if Lookup(old(store.cards), id, owner).Ok? then [CardDeleteCall(id)] else [])
    {
      var found := GetCreditCard(id, owner);
      if found.Err? {
        return Err(found.error);
      }
      r := store.Delete(found.value, fault);
    }
  }

  /** Someone else's card, or no card, is not found, and neither update nor delete gets further. */
  lemma MissingCardStopsWrites(cards: map<string, CreditCard>, id: string, owner: string, p: CardPatch,
                               fault: Option<Exception>)
    requires id !in cards || cards[id].userId != owner
    ensures Updated(cards, id, owner, p, fault) == Err(CreditCardNotFound(CardMissing))
    ensures Deleted(cards, id, owner, fault) == Err(CreditCardNotFound(CardMissing))
  {
  }

  /** An update changes exactly the supplied fields of the owner's card and no other card. */
  lemma UpdateChangesOnlyPatch(cards: map<string, CreditCard>, id: string, owner: string, p: CardPatch)
    requires Updated(cards, id, owner, p, None).Ok?
    ensures var c := Updated(cards, id, owner, p, None).value;
      c.id == cards[id].id && c.userId == owner
      && (p.name.None? ==> c.name == cards[id].name) && (p.name.Some? ==> c.name == p.name.value)
      && (p.limit.None? ==> c.limit == cards[id].limit) && (p.limit.Some? ==> c.limit == p.limit.value)
      && (p.invoiceStartDay.None? ==> c.invoiceStartDay == cards[id].invoiceStartDay)
      && (p.invoiceStartDay.Some? ==> c.invoiceStartDay == p.invoiceStartDay.value)
  {
  }

  /**
   * After a successful delete the card is no longer found, for its owner or anyone else,
   * and every other card is found exactly as before.
   */
  lemma DeleteRemovesLookedUp(cards: map<string, CreditCard>, id: string, owner: string, other: string)
    requires Deleted(cards, id, owner, None).Ok?
    ensures Lookup(Remaining(cards, id, owner, None), id, other) == Err(CreditCardNotFound(CardMissing))
    ensures forall k :: k != id ==> Lookup(Remaining(cards, id, owner, None), k, other) == Lookup(cards, k, other)
  {
  }

  // ---------------------------------------------------------------- categories

  /** `CategoryService`: categories answered as responses. */
  class CategoryService {
    const store: CategoryStore

    constructor(store: CategoryStore)
      ensures this.store == store
    {
      this.store := store;
    }

    /** `get_categories`: every category, mapped, in the order the store lists them. */
    method GetCategories() returns (r: Response<seq<CategoryView>>)
      ensures r.meta.None?
      ensures forall v :: v in r.data <==> exists c :: c in store.categories.Values && v == CategoryMapper(c)
      ensures |r.data| == |store.categories.Values|
    {
      var all := store.GetAll();
      r := CategoriesResponse(all);
      assert |all| == |store.categories.Values| by {
        DistinctCard(all, store.categories.Values);
      }
      forall v | v in r.data
        ensures exists c :: c in store.categories.Values && v == CategoryMapper(c)
      {
        var i :| 0 <= i < |r.data| && r.data[i] == v;
        assert all[i] in store.categories.Values;
      }
      forall v | exists c :: c in store.categories.Values && v == CategoryMapper(c)
        ensures v in r.data
      {
        var c :| c in store.categories.Values && v == CategoryMapper(c);
        var i :| 0 <= i < |all| && all[i] == c;
        assert r.data[i] == v;
      }
    }

    /** `get_category`: the mapped category, or not found. */
    function GetCategory(id: string): (r: Result<Response<CategoryView>>)
      reads this, store
      ensures r.Ok? <==> id in store.categories
      ensures r.Ok? ==> r.value.meta.None?
      ensures r.Ok? ==> r.value.data.id == store.categories[id].id
      ensures r.Ok? ==> r.value.data.description == store.categories[id].description
      ensures store.Valid() && r.Ok? ==> r.value.data.id == id
      ensures r.Err? ==> r.error == CategoryNotFound(CategoryMissing)
    {
      match store.GetById(id)
      case None => Err(CategoryNotFound(CategoryMissing))
      case Some(c) => Ok(CategoryResponse(c))
    }
  }

  /** A list with no repeats that holds exactly the elements of a set is as long as the set is large. */
  lemma {:induction false} DistinctCard<T>(s: seq<T>, xs: set<T>)
    requires Distinct(s)
    requires forall x :: x in s <==> x in xs
    ensures |s| == |xs|
  {
    if s == [] {
      assert forall x :: x !in xs;
      assert xs == {};
    } else {
      var rest := s[1..];
      assert Distinct(rest);
      forall x ensures x in rest <==> x in xs - {s[0]} {
        if x in rest {
          var i :| 0 <= i < |rest| && rest[i] == x;
          assert s[i + 1] == x;
        }
        if x in xs - {s[0]} {
          assert x in s;
        }
      }
      DistinctCard(rest, xs - {s[0]});
    }
  }

  /**
   * The older categories service: categories are returned as stored, without a
   * response envelope.
   */
  class LegacyCategoryService {
    const store: CategoryStore

    constructor(store: CategoryStore)
      ensures this.store == store
    {
      this.store := store;
    }

    method GetCategories() returns (r: seq<Category>)
      ensures Distinct(r)
      ensures forall c :: c in r <==> c in store.categories.Values
    {
      r := store.GetAll();
    }

    function GetCategory(id: string): (r: Result<Category>)
      reads this, store
      ensures r.Ok? <==> id in store.categories
      ensures r.Ok? ==> r.value == store.categories[id]
      ensures store.Valid() && r.Ok? ==> r.value.id == id
      ensures r.Err? ==> r.error == CategoryNotFound(CategoryMissing)
    {
      match store.GetById(id)
      case None => Err(CategoryNotFound(CategoryMissing))
      case Some(c) => Ok(c)
    }
  }
}
