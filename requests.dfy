/**
 * Request and response models of the transactions API: the cross-field rules a
 * transaction request must meet, and the mappers that turn stored entities into
 * response payloads.
 */
module Requests {
  import opened Outcomes
  import opened Dates
  import opened Domain

  /**
   * An incoming transaction request. `dateSent` and `recurringDaySent` say whether the
   * input carried those keys at all (an explicit null counts as sent): a key left out
   * takes its default without its field validator running.
   */
  datatype TransactionCreate = TransactionCreate(
    description: string,
    amount: int,
    isFixed: bool,
    isRevenue: bool,
    date: Option<Date>,
    dateSent: bool,
    recurringDay: Option<int>,
    recurringDaySent: bool,
    kind: Kind,
    categoryId: string,
    userId: Option<string>,
    creditCardId: Option<string>,
    installmentsNumber: Option<int>)

  predicate PositiveOrAbsent(x: Option<int>) {
    x.Some? ==> x.value > 0
  }

  /** A supplied date is a real calendar date (the date parser's job, not modelled). */
  predicate DateValid(t: TransactionCreate) {
    t.date.Some? ==> Valid(t.date.value)
  }

  /** What every constructed request satisfies by its field types alone. */
  predicate WellTyped(t: TransactionCreate) {
    DateValid(t) && PositiveOrAbsent(t.recurringDay) && PositiveOrAbsent(t.installmentsNumber)
  }

  const CreditCardRequired: string := "credit card is required when transaction is credit"
  const DateRequired: string := "date is required when transaction is not fixed"
  const RecurringDayRequired: string := "recurring day is required when transaction is fixed"
  const NotPositive: string := "Input should be greater than 0"

  /** `validate_credit_card`, run on the raw input before any field: a credit request needs a card. */
  function CreditCardCheck(t: TransactionCreate): Option<ErrorDetail> {
    if t.kind == Credit && t.creditCardId.None? then Some(ErrorDetail("", CreditCardRequired))
    else None
  }

  /** `validate_date`, run only on a sent key: a request that is not fixed needs a date. */
  function DateCheck(t: TransactionCreate): Option<ErrorDetail> {
    if t.dateSent && !t.isFixed && t.date.None? then Some(ErrorDetail("date", DateRequired)) else None
  }

  /**
   * The `recurring_day` field: a supplied number must be positive; only then does
   * `validate_recurring_day` run, which rejects a fixed request whose key was sent as null.
   */
  function RecurringDayCheck(t: TransactionCreate): Option<ErrorDetail> {
    match t.recurringDay
    case Some(d) => if d <= 0 then Some(ErrorDetail("recurring_day", NotPositive)) else None
    case None => if t.recurringDaySent && t.isFixed then Some(ErrorDetail("recurring_day", RecurringDayRequired)) else None
  }

  /** The `installments_number` field: a supplied number must be positive. */
  function InstallmentsCheck(t: TransactionCreate): Option<ErrorDetail> {
    match t.installmentsNumber
    case Some(n) => if n <= 0 then Some(ErrorDetail("installments_number", NotPositive)) else None
    case None => None
  }

  /** The indices from `i` on of the failed checks, in increasing order. */
  function FailingFrom(cs: seq<Option<ErrorDetail>>, i: nat): seq<nat>
    requires i <= |cs|
    decreases |cs| - i
  {
    if i == |cs| then [] else (if cs[i].Some? then [i] else []) + FailingFrom(cs, i + 1)
  }

  /** The failing indices from `i` on are exactly the failed checks there, increasing. */
  lemma {:induction false} FailingFromIs(cs: seq<Option<ErrorDetail>>, i: nat)
    requires i <= |cs|
    ensures forall k :: 0 <= k < |FailingFrom(cs, i)| ==>
      i <= FailingFrom(cs, i)[k] < |cs| && cs[FailingFrom(cs, i)[k]].Some?
    ensures forall k, l :: 0 <= k < l < |FailingFrom(cs, i)| ==> FailingFrom(cs, i)[k] < FailingFrom(cs, i)[l]
    ensures forall j :: i <= j < |cs| && cs[j].Some? ==> j in FailingFrom(cs, i)
    decreases |cs| - i
  {
    if i < |cs| {
      FailingFromIs(cs, i + 1);
      var rest := FailingFrom(cs, i + 1);
      var head: seq<nat> := if cs[i].Some? then [i] else [];
      var ps := FailingFrom(cs, i);
      assert ps == head + rest;
      assert forall k :: 0 <= k < |rest| ==> ps[|head| + k] == rest[k];
      assert forall k :: 0 <= k < |head| ==> ps[k] == i;
    }
  }

  /** The errors pydantic collects: the details of the failed checks, in the order of the checks. */
  function Present(cs: seq<Option<ErrorDetail>>): seq<ErrorDetail> {
    var ps := FailingFrom(cs, 0);
    FailingFromIs(cs, 0);
    seq(|ps|, k requires 0 <= k < |ps| => cs[ps[k]].value)
  }

  /** Entry `k` of the report is the detail of the `k`-th failed check. */
  lemma PresentAt(cs: seq<Option<ErrorDetail>>)
    ensures |Present(cs)| == |FailingFrom(cs, 0)|
    ensures forall k :: 0 <= k < |Present(cs)| ==>
      FailingFrom(cs, 0)[k] < |cs| && cs[FailingFrom(cs, 0)[k]] == Some(Present(cs)[k])
  {
    FailingFromIs(cs, 0);
  }

  /**
   * Every failed check is reported, nothing else is, none are reported exactly when all
   * pass, and the reports keep the order of the checks.
   */
  lemma PresentIs(cs: seq<Option<ErrorDetail>>)
    ensures |Present(cs)| <= |cs|
    ensures (Present(cs) == []) <==> (forall i :: 0 <= i < |cs| ==> cs[i].None?)
    ensures forall i :: 0 <= i < |cs| && cs[i].Some? ==> cs[i].value in Present(cs)
    ensures forall d :: d in Present(cs) ==> exists i :: 0 <= i < |cs| && cs[i] == Some(d)
    ensures forall k, l :: 0 <= k < l < |Present(cs)| ==>
      exists i, j :: 0 <= i < j < |cs| && cs[i] == Some(Present(cs)[k]) && cs[j] == Some(Present(cs)[l])
  {
    PresentAt(cs);
    FailingFromIs(cs, 0);
    PresentBound(cs);
    PresentComplete(cs);
    PresentSound(cs);
    PresentOrdered(cs);
    if Present(cs) != [] {
      assert Present(cs)[0] in Present(cs);
    }
  }

  lemma PresentBound(cs: seq<Option<ErrorDetail>>)
    ensures |Present(cs)| <= |cs|
  {
    PresentAt(cs);
    FailingFromIs(cs, 0);
    DistinctBound(FailingFrom(cs, 0), |cs|);
  }

  lemma PresentComplete(cs: seq<Option<ErrorDetail>>)
    ensures forall i :: 0 <= i < |cs| && cs[i].Some? ==> cs[i].value in Present(cs)
  {
    PresentAt(cs);
    FailingFromIs(cs, 0);
    var ps := FailingFrom(cs, 0);
    forall i | 0 <= i < |cs| && cs[i].Some? ensures cs[i].value in Present(cs) {
      var k :| 0 <= k < |ps| && ps[k] == i;
      assert Present(cs)[k] == cs[i].value;
    }
  }

  lemma PresentSound(cs: seq<Option<ErrorDetail>>)
    ensures forall d :: d in Present(cs) ==> exists i :: 0 <= i < |cs| && cs[i] == Some(d)
  {
    PresentAt(cs);
    forall d | d in Present(cs) ensures exists i :: 0 <= i < |cs| && cs[i] == Some(d) {
      var k :| 0 <= k < |Present(cs)| && Present(cs)[k] == d;
      assert cs[FailingFrom(cs, 0)[k]] == Some(d);
    }
  }

  lemma PresentOrdered(cs: seq<Option<ErrorDetail>>)
    ensures forall k, l :: 0 <= k < l < |Present(cs)| ==>
      exists i, j :: 0 <= i < j < |cs| && cs[i] == Some(Present(cs)[k]) && cs[j] == Some(Present(cs)[l])
  {
    PresentAt(cs);
    FailingFromIs(cs, 0);
    var ps := FailingFrom(cs, 0);
    forall k, l | 0 <= k < l < |Present(cs)|
      ensures exists i, j :: 0 <= i < j < |cs| && cs[i] == Some(Present(cs)[k]) && cs[j] == Some(Present(cs)[l])
    {
      assert ps[k] < ps[l];
      assert cs[ps[k]] == Some(Present(cs)[k]) && cs[ps[l]] == Some(Present(cs)[l]);
    }
  }

  /** A strictly increasing list of indices below `n` has at most `n` entries. */
  lemma {:induction false} DistinctBound(ps: seq<nat>, n: nat)
    requires forall k :: 0 <= k < |ps| ==> ps[k] < n
    requires forall k, l :: 0 <= k < l < |ps| ==> ps[k] < ps[l]
    ensures |ps| <= n
  {
    if ps != [] {
      var last := ps[|ps| - 1];
      DistinctBound(ps[..|ps| - 1], last);
    }
  }

  /** The three cross-field rules and the two positivity constraints, stated plainly. */
  predicate Acceptable(t: TransactionCreate)
    ensures Acceptable(t) <==>
      CreditCardCheck(t).None? && DateCheck(t).None? && RecurringDayCheck(t).None? && InstallmentsCheck(t).None?
  {
    && !(t.isFixed && t.recurringDay.None? && t.recurringDaySent)
    && !(!t.isFixed && t.date.None? && t.dateSent)
    && !(t.kind == Credit && t.creditCardId.None?)
    && PositiveOrAbsent(t.recurringDay)
    && PositiveOrAbsent(t.installmentsNumber)
  }

  /**
   * Building a `TransactionCreate`: the model-level card check runs first and alone;
   * otherwise the field checks run in field order (date, recurring_day,
   * installments_number) and every failure is reported. An accepted request is
   * returned exactly as given.
   */
  function Validate(t: TransactionCreate): (r: Result<TransactionCreate>)
    ensures r.Ok? <==> Acceptable(t)
    ensures r.Ok? ==> r.value == t
    ensures r.Err? ==> r.error.ValidationError? && r.error.details != []
    ensures r.Err? ==> forall d :: d in r.error.details ==>
      Some(d) == CreditCardCheck(t) || Some(d) == DateCheck(t) || Some(d) == RecurringDayCheck(t)
      || Some(d) == InstallmentsCheck(t)
    ensures CreditCardCheck(t).Some? ==> r == Err(ValidationError([CreditCardCheck(t).value]))
  {
    match CreditCardCheck(t)
    case Some(e) => Err(ValidationError([e]))
    case None =>
      var cs := [DateCheck(t), RecurringDayCheck(t), InstallmentsCheck(t)];
      assert cs[0] == DateCheck(t) && cs[1] == RecurringDayCheck(t) && cs[2] == InstallmentsCheck(t);
      var ds := Present(cs);
      PresentIs(cs);
      if ds == [] then Ok(t) else Err(ValidationError(ds))
  }

  /** A credit request without a card is rejected with the card message only. */
  lemma CreditWithoutCardRejected(t: TransactionCreate)
    requires t.kind == Credit && t.creditCardId.None?
    ensures Validate(t) == Err(ValidationError([ErrorDetail("", CreditCardRequired)]))
  {
  }

  /** A fixed request that sends a null recurring day is rejected, naming the field. */
  lemma FixedWithoutRecurringDayRejected(t: TransactionCreate)
    requires t.isFixed && t.recurringDay.None? && t.recurringDaySent
    requires !(t.kind == Credit && t.creditCardId.None?)
    ensures Validate(t).Err?
    ensures ErrorDetail("recurring_day", RecurringDayRequired) in Validate(t).error.details
  {
    var cs := [DateCheck(t), RecurringDayCheck(t), InstallmentsCheck(t)];
    assert cs[1] == Some(ErrorDetail("recurring_day", RecurringDayRequired));
    PresentIs(cs);
    assert Validate(t) == Err(ValidationError(Present(cs)));
  }

  /** A request that is not fixed and sends a null date is rejected, naming the field. */
  lemma VariableWithoutDateRejected(t: TransactionCreate)
    requires !t.isFixed && t.date.None? && t.dateSent
    requires !(t.kind == Credit && t.creditCardId.None?)
    ensures Validate(t).Err?
    ensures ErrorDetail("date", DateRequired) in Validate(t).error.details
  {
    var cs := [DateCheck(t), RecurringDayCheck(t), InstallmentsCheck(t)];
    assert cs[0] == Some(ErrorDetail("date", DateRequired));
    PresentIs(cs);
    assert Validate(t) == Err(ValidationError(Present(cs)));
  }

  /** The card id of a request of another kind is not cleared: it survives validation. */
  lemma OtherKindsKeepCard(t: TransactionCreate)
    requires t.kind != Credit && Acceptable(t)
    ensures Validate(t).Ok? && Validate(t).value.creditCardId == t.creditCardId
  {
  }

  /** Nothing forbids a fixed request that also carries a date. */
  lemma FixedWithDateAccepted(t: TransactionCreate)
    requires t.isFixed && t.date.Some? && t.recurringDay.Some? && t.recurringDay.value > 0
    requires t.kind != Credit || t.creditCardId.Some?
    requires PositiveOrAbsent(t.installmentsNumber)
    ensures Validate(t) == Ok(t)
  {
  }

  /**
   * Leaving the keys out skips both field validators: a fixed request without a
   * recurring day, or a variable one without a date, is accepted when its card rule and
   * count hold.
   */
  lemma OmittedKeysSkipChecks(t: TransactionCreate)
    requires !t.dateSent && !t.recurringDaySent && t.date.None? && t.recurringDay.None?
    requires t.kind != Credit || t.creditCardId.Some?
    requires PositiveOrAbsent(t.installmentsNumber)
    ensures Validate(t) == Ok(t)
  {
  }

  /** An accepted request has positive recurring day and installment count when present. */
  lemma AcceptedIsWellTyped(t: TransactionCreate)
    requires DateValid(t) && Validate(t).Ok?
    ensures WellTyped(Validate(t).value)
  {
  }

  // ---------------------------------------------------------------- responses

  datatype CreditCardView = CreditCardView(id: string, name: string, limit: int, invoiceStartDay: int)
  datatype CategoryView = CategoryView(id: string, description: string)
  datatype InstallmentView = InstallmentView(number: int, date: Date, amount: int)

  /** The response shape of one transaction. */
  datatype TransactionView = TransactionView(
    id: string,
    description: string,
    amount: int,
    isFixed: bool,
    isRevenue: bool,
    date: Option<Date>,
    recurringDay: Option<int>,
    kind: Kind,
    categoryId: string,
    userId: Option<string>,
    creditCardId: Option<string>,
    installments: Option<seq<InstallmentView>>)

  datatype PaginationMeta = PaginationMeta(page: int, pages: int, size: int, total: int)

  /** A response envelope: the payload and, for paged lists, the page metadata. */
  datatype Response<+T> = Response(data: T, meta: Option<PaginationMeta>)

  function CreditCardMapper(c: CreditCard): (v: CreditCardView)
    ensures v.id == c.id && v.name == c.name && v.limit == c.limit && v.invoiceStartDay == c.invoiceStartDay
  {
    CreditCardView(c.id, c.name, c.limit, c.invoiceStartDay)
  }

  function CategoryMapper(c: Category): (v: CategoryView)
    ensures v.id == c.id && v.description == c.description
  {
    CategoryView(c.id, c.description)
  }

  function InstallmentMapper(i: Installment): (v: InstallmentView)
    ensures v.number == i.number && v.date == i.date && v.amount == i.amount
  {
    InstallmentView(i.number, i.date, i.amount)
  }

  /** Copies every column of a stored transaction, its installments in order. */
  function TransactionMapper(t: Transaction): (v: TransactionView)
    ensures v.id == t.id && v.userId == Some(t.userId) && v.kind == t.kind && v.isFixed == t.isFixed
    ensures v.amount == t.amount && v.date == t.date && v.recurringDay == t.recurringDay
    ensures v.description == t.description && v.isRevenue == t.isRevenue && v.categoryId == t.categoryId
    ensures v.creditCardId == t.creditCardId
    ensures v.installments.Some? && |v.installments.value| == |t.installments|
    ensures forall i :: 0 <= i < |t.installments| ==> v.installments.value[i] == InstallmentMapper(t.installments[i])
  {
    TransactionView(t.id, t.description, t.amount, t.isFixed, t.isRevenue, t.date, t.recurringDay,
                    t.kind, t.categoryId, Some(t.userId), t.creditCardId,
                    Some(MapSeq(InstallmentMapper, t.installments)))
  }

  function CreditCardResponse(c: CreditCard): Response<CreditCardView> {
    Response(CreditCardMapper(c), None)
  }

  /** One view per card, in the cards' order, with no page metadata. */
  function CreditCardsResponse(cards: seq<CreditCard>): (r: Response<seq<CreditCardView>>)
    ensures |r.data| == |cards| && r.meta.None?
    ensures forall i :: 0 <= i < |cards| ==> r.data[i] == CreditCardMapper(cards[i])
  {
    Response(MapSeq(CreditCardMapper, cards), None)
  }

  function CategoryResponse(c: Category): Response<CategoryView> {
    Response(CategoryMapper(c), None)
  }

  /** One view per category, in the categories' order, with no page metadata. */
  function CategoriesResponse(categories: seq<Category>): (r: Response<seq<CategoryView>>)
    ensures |r.data| == |categories| && r.meta.None?
    ensures forall i :: 0 <= i < |categories| ==> r.data[i] == CategoryMapper(categories[i])
  {
    Response(MapSeq(CategoryMapper, categories), None)
  }

  function TransactionResponse(t: Transaction): Response<TransactionView> {
    Response(TransactionMapper(t), None)
  }

  /** One view per item, in the items' order, with the page metadata exactly as given. */
  function PaginatedTransactionResponse(items: seq<Transaction>, page: int, pages: int, size: int, total: int)
    : (r: Response<seq<TransactionView>>)
    ensures |r.data| == |items|
    ensures forall i :: 0 <= i < |items| ==> r.data[i] == TransactionMapper(items[i])
    ensures r.meta == Some(PaginationMeta(page, pages, size, total))
  {
    Response(MapSeq(TransactionMapper, items), Some(PaginationMeta(page, pages, size, total)))
  }

  /** What the export reads of a transaction: its own fields and its loaded relations. */
  datatype ExportItem = ExportItem(
    description: string,
    date: Option<Date>,
    recurringDay: Option<int>,
    amount: int,
    category: Option<CategoryView>,
    creditCard: Option<CreditCardView>)

  function ExportItemOf(t: LoadedTransaction): ExportItem {
    ExportItem(t.record.description, t.record.date, t.record.recurringDay, t.record.amount,
               match t.category case Some(c) => Some(CategoryMapper(c)) case None => None,
               match t.creditCard case Some(c) => Some(CreditCardMapper(c)) case None => None)
  }

  /** The list payload handed to the export: one item per transaction, in order. */
  function TransactionsResponse(items: seq<LoadedTransaction>): (r: Response<seq<ExportItem>>)
    ensures |r.data| == |items| && r.meta.None?
    ensures forall i :: 0 <= i < |items| ==> r.data[i] == ExportItemOf(items[i])
  {
    Response(MapSeq(ExportItemOf, items), None)
  }

  // ---------------------------------------------------------------- dumps

  /** `model_dump(exclude_none=True)`: every field, installments_number among them when given. */
  function DumpExcludeNone(t: TransactionCreate): (k: Kwargs)
    ensures k.fields == DomainFields(t)
    ensures k.extra == (if t.installmentsNumber.Some? then ["installments_number"] else [])
  {
    Kwargs(DomainFields(t), if t.installmentsNumber.Some? then ["installments_number"] else [])
  }

  /** The request as transaction columns, without the request-only installments_number. */
  function DomainFields(t: TransactionCreate): TransactionFields {
    TransactionFields(t.description, t.amount, t.isFixed, t.isRevenue, t.date, t.recurringDay,
                      t.kind, t.categoryId, t.userId, t.creditCardId)
  }
}
