/**
 * Installment generation and the credit-card transaction handler: a credit purchase is
 * split into monthly installments of equal rounded amount, stored together with the
 * transaction, and any failure rolls the store back and is passed on unchanged.
 */
module Handlers {
  import opened Outcomes
  import opened Dates
  import opened Money
  import opened Domain
  import opened Requests
  import opened Stores

  /** What `date + relativedelta(months=1)` raises past the last representable year. */
  const YearOutOfRange: string := "year 10000 is out of range"

  /** What adding a month to an absent date raises. */
  const NoDateToAdvance: string := "unsupported operand type(s) for +: 'NoneType' and 'relativedelta'"

  /** What an installment built without a date is refused with. */
  const DateMissing: string := "Input should be a valid date"

  /** The dates `_generate_installment_dates` produces, or the error stepping past year 9999 raises. */
  function InstallmentDates(start: Date, n: int): (r: Result<seq<Date>>)
    requires InCalendar(start)
    ensures r.Ok? <==> forall i :: 0 <= i < |Schedule(start, n)| ==> Schedule(start, n)[i].year <= MaxYear
    ensures r.Ok? ==> r.value == Schedule(start, n)
    ensures r.Err? ==> r.error == ValueError(YearOutOfRange)
  {
    ScheduleYears(start, n);
    var s := Schedule(start, n);
    if s[|s| - 1].year <= MaxYear then Ok(s)
    else assert Schedule(start, n)[|s| - 1].year > MaxYear; Err(ValueError(YearOutOfRange))
  }

  /**
   * `_generate_installment_dates`: starting from `[start]`, each further date is one
   * month after the last one appended.
   */
  method GenerateInstallmentDates(start: Date, n: int) returns (r: Result<seq<Date>>)
    requires Valid(start)
    ensures r == InstallmentDates(start, n)
    ensures r.Ok? ==> forall i :: 0 <= i < |r.value| ==> Valid(r.value[i])
  {
    var dates := [start];
    var i := 1;
    while i < n
      invariant 1 <= i <= (if n < 1 then 1 else n)
      invariant dates == Schedule(start, i)
      invariant forall k :: 0 <= k < |dates| ==> Valid(dates[k])
    {
      var next := AddOneMonth(dates[|dates| - 1]);
      if next.year > MaxYear {
        assert Schedule(start, i + 1) == dates + [next];
        OverflowPersists(start, n, i);
        return Err(ValueError(YearOutOfRange));
      }
      dates := dates + [next];
      i := i + 1;
    }
    if n > 1 {
      assert i == n;
    } else {
      assert Schedule(start, n) == [start];
    }
    assert dates == Schedule(start, n);
    r := Ok(dates);
  }

  /** Once a month of the schedule lies past year 9999, the whole schedule is refused. */
  lemma OverflowPersists(start: Date, n: int, i: int)
    requires InCalendar(start) && 1 <= i < n
    requires Schedule(start, i + 1)[i].year > MaxYear
    ensures InstallmentDates(start, n) == Err(ValueError(YearOutOfRange))
  {
    SchedulePrefix(start, n, i + 1);
    ScheduleYears(start, n);
    assert Schedule(start, n)[i] == Schedule(start, i + 1)[i];
  }

  /** `not installments_number`: an absent (or zero) count is read as one installment. */
  function InstallmentCount(t: TransactionCreate): (n: int)
    requires PositiveOrAbsent(t.installmentsNumber)
    ensures n >= 1
    ensures t.installmentsNumber.Some? ==> n == t.installmentsNumber.value
    ensures t.installmentsNumber.None? ==> n == 1
  {
    match t.installmentsNumber
    case Some(k) => if k == 0 then 1 else k
    case None => 1
  }

  /**
   * The installments of a request, numbered from one, one per month from the request's
   * date, each carrying the amount divided by the count and rounded to the cent.
   */
  function InstallmentPlan(t: TransactionCreate): (r: Result<seq<Installment>>)
    requires WellTyped(t)
    ensures t.date.None? ==> r.Err? && (r.error.TypeError? || r.error.ValidationError?)
    ensures t.date.Some? ==> (r.Ok? <==> InstallmentDates(t.date.value, InstallmentCount(t)).Ok?)
    ensures t.date.Some? && r.Err? ==> r.error == ValueError(YearOutOfRange)
    ensures r.Ok? ==> |r.value| == InstallmentCount(t)
    ensures r.Ok? ==> forall i :: 0 <= i < |r.value| ==>
      r.value[i] == Installment(i + 1, Schedule(t.date.value, InstallmentCount(t))[i], Share(t.amount, InstallmentCount(t)))
  {
    var n := InstallmentCount(t);
    match t.date
    case None =>
      if n > 1 then Err(TypeError(NoDateToAdvance))
      else Err(ValidationError([ErrorDetail("date", DateMissing)]))
    case Some(d) =>
      match InstallmentDates(d, n)
      case Err(e) => Err(e)
      case Ok(ds) => Ok(seq(|ds|, i requires 0 <= i < |ds| => Installment(i + 1, ds[i], Share(t.amount, n))))
  }

  /**
   * `generate_installments`: fills in the default count on the request (the change a
   * caller sees afterwards) and produces the installments.
   */
  method GenerateInstallments(t: TransactionCreate) returns (t': TransactionCreate, r: Result<seq<Installment>>)
    requires WellTyped(t)
    ensures t' == t.(installmentsNumber := Some(InstallmentCount(t)))
    ensures WellTyped(t')
    ensures r == InstallmentPlan(t)
  {
    t' := if t.installmentsNumber.None? || t.installmentsNumber.value == 0
          then t.(installmentsNumber := Some(1)) else t;
    var n := t'.installmentsNumber.value;
    var amount := Share(t'.amount, n);
    if t'.date.None? {
      if n > 1 {
        return t', Err(TypeError(NoDateToAdvance));
      }
      return t', Err(ValidationError([ErrorDetail("date", DateMissing)]));
    }
    var dates := GenerateInstallmentDates(t'.date.value, n);
    match dates {
      case Err(e) => r := Err(e);
      case Ok(ds) =>
        r := Ok(seq(|ds|, i requires 0 <= i < |ds| => Installment(i + 1, ds[i], amount)));
    }
  }

  /** A request with a usable date yields exactly the requested number of installments. */
  lemma PlanShape(t: TransactionCreate)
    requires WellTyped(t) && t.date.Some?
    requires InstallmentPlan(t).Ok?
    ensures |InstallmentPlan(t).value| == InstallmentCount(t)
    ensures forall i :: 0 <= i < |InstallmentPlan(t).value| ==>
      InstallmentPlan(t).value[i].number == i + 1
      && InstallmentPlan(t).value[i].amount == Share(t.amount, InstallmentCount(t))
      && Valid(InstallmentPlan(t).value[i].date)
    ensures InstallmentPlan(t).value[0].date == t.date.value
  {
    var n := InstallmentCount(t);
    ScheduleValid(t.date.value, n);
  }

  /** Consecutive installments fall one calendar month apart. */
  lemma PlanMonthly(t: TransactionCreate, i: int)
    requires WellTyped(t) && t.date.Some? && InstallmentPlan(t).Ok?
    requires 0 <= i && i + 1 < |InstallmentPlan(t).value|
    ensures InstallmentPlan(t).value[i + 1].date == AddOneMonth(InstallmentPlan(t).value[i].date)
  {
    ScheduleStep(t.date.value, InstallmentCount(t), i);
  }

  /** Installment dates strictly increase. */
  lemma PlanChronological(t: TransactionCreate)
    requires WellTyped(t) && t.date.Some? && InstallmentPlan(t).Ok?
    ensures forall i, j :: 0 <= i < j < |InstallmentPlan(t).value| ==>
      Before(InstallmentPlan(t).value[i].date, InstallmentPlan(t).value[j].date)
  {
    ScheduleIncreasing(t.date.value, InstallmentCount(t));
  }

  /**
   * The installments add up to the amount only up to rounding: they miss it by at most
   * half a cent per installment.
   */
  lemma PlanTotal(t: TransactionCreate)
    requires WellTyped(t) && t.date.Some? && InstallmentPlan(t).Ok?
    ensures 2 * Abs(t.amount - |InstallmentPlan(t).value| * InstallmentPlan(t).value[0].amount)
            <= |InstallmentPlan(t).value|
  {
    PlanShape(t);
  }

  /** The plan fails exactly when the last month would land past year 9999, and then with that error. */
  lemma PlanOverflow(t: TransactionCreate)
    requires WellTyped(t) && t.date.Some?
    ensures InstallmentPlan(t).Err? <==> Schedule(t.date.value, InstallmentCount(t))[InstallmentCount(t) - 1].year > MaxYear
    ensures InstallmentPlan(t).Err? ==> InstallmentPlan(t).error == ValueError(YearOutOfRange)
  {
  }

  /** Without a count, one installment on the request's date carries the whole amount. */
  lemma DefaultSingleInstallment(t: TransactionCreate)
    requires WellTyped(t) && t.date.Some? && t.installmentsNumber.None?
    ensures InstallmentPlan(t) == Ok([Installment(1, t.date.value, t.amount)])
  {
    ShareOfOne(t.amount);
    var d := t.date.value;
    assert Schedule(d, 1) == [d];
    var plan := InstallmentPlan(t).value;
    assert |plan| == 1 && plan[0] == Installment(1, d, t.amount);
    assert plan == [Installment(1, d, t.amount)];
  }

  /** 300.00 in three installments from 2023-12-20: 100.00 on 2023-12-20, 2024-01-20 and 2024-02-20. */
  lemma ThreeInstallmentsFromDecember(t: TransactionCreate)
    requires WellTyped(t)
    requires t.amount == 30000 && t.installmentsNumber == Some(3) && t.date == Some(Date(2023, 12, 20))
    ensures InstallmentPlan(t) == Ok([Installment(1, Date(2023, 12, 20), 10000),
                                      Installment(2, Date(2024, 1, 20), 10000),
                                      Installment(3, Date(2024, 2, 20), 10000)])
  {
    YearRollover();
    ShareExact(30000, 3);
    var plan := InstallmentPlan(t).value;
    assert |plan| == 3;
    assert plan[0] == Installment(1, Date(2023, 12, 20), 10000);
    assert plan[1] == Installment(2, Date(2024, 1, 20), 10000);
    assert plan[2] == Installment(3, Date(2024, 2, 20), 10000);
    assert plan == [Installment(1, Date(2023, 12, 20), 10000),
                    Installment(2, Date(2024, 1, 20), 10000),
                    Installment(3, Date(2024, 2, 20), 10000)];
  }

  /**
   * `CreditCardTransactionHandler`: stores a request and its installments through the
   * transaction store.
   */
  class CreditCardTransactionHandler {
    const store: TransactionStore

    constructor(store: TransactionStore)
      ensures this.store == store
    {
      this.store := store;
    }

    /**
     * `process_transaction`: generate the installments, store the transaction with
     * them, and on any failure roll the store back once and pass the failure on.
     */
    method ProcessTransaction(t: TransactionCreate, newId: string, freshOwner: string, fault: Option<Exception>)
      returns (t': TransactionCreate, r: Result<Transaction>)
      requires WellTyped(t) && store.Valid()
      modifies store
      ensures store.Valid()
      ensures t' == t.(installmentsNumber := Some(InstallmentCount(t)))
      ensures r == Processed(old(store.records), t, newId, freshOwner, fault)
      ensures store.records == Stored(old(store.records), r)
      ensures store.log == old(store.log) + ProcessCalls(t, r)
    {
      var plan;
      t', plan := GenerateInstallments(t);
      if plan.Err? {
        store.Rollback();
        return t', Err(plan.error);
      }
      r := store.CreateWithInstallments(DomainFields(t'), plan.value, newId, freshOwner, fault);
      if r.Err? {
        store.Rollback();
      }
    }
  }

  /** The outcome of processing a request against the table `records`. */
  function Processed(records: map<string, Transaction>, t: TransactionCreate, newId: string, freshOwner: string,
                     fault: Option<Exception>): (r: Result<Transaction>)
    requires WellTyped(t)
    ensures InstallmentPlan(t).Err? ==> r == Err(InstallmentPlan(t).error)
    ensures InstallmentPlan(t).Ok? ==> (r.Ok? <==> fault.None? && newId !in records)
    ensures r.Ok? ==> InstallmentPlan(t).Ok? && r.value.installments == InstallmentPlan(t).value
    ensures r.Ok? ==> r.value.id == newId && FieldsOf(r.value) == DomainFields(t).(userId := Some(DomainFields(t).userId.GetOr(freshOwner)))
  {
    match InstallmentPlan(t)
    case Err(e) => Err(e)
    case Ok(plan) => Insert(records, DomainFields(t), plan, newId, freshOwner, fault)
  }

  /** The store calls processing makes: the insertion when the plan exists, then a rollback on failure. */
  function ProcessCalls(t: TransactionCreate, r: Result<Transaction>): seq<TransactionCall>
    requires WellTyped(t)
  {
    (if InstallmentPlan(t).Ok? then [CreateWithInstallmentsCall(DomainFields(t), InstallmentPlan(t).value)] else [])
    + (if r.Err? then [RollbackCall] else [])
  }
}
