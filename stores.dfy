/**
 * The relational store behind the services, one class per table. Each keeps its rows in
 * a map keyed by primary key and a log of the calls made on it. A failure of the
 * database itself arrives as the `fault` argument of the call that commits, and the
 * identifier a new row's column default would draw arrives as `newId`/`freshOwner`.
 */
module Stores {
  import opened Outcomes
  import opened Dates
  import opened Domain

  const DuplicateKey: string := "duplicate key value violates unique constraint"

  /** The message the mapped `Transaction` constructor raises for a name that is not a column. */
  function InvalidKeyword(name: string): string {
    "'" + name + "' is an invalid keyword argument for Transaction"
  }

  /**
   * Adding a row and committing: the database's own failure comes first, then a taken
   * primary key; otherwise the row is stored, owned by the given user or, when none is
   * given, by the identifier the column default draws.
   */
  function Insert(records: map<string, Transaction>, f: TransactionFields, installments: seq<Installment>,
                  newId: string, freshOwner: string, fault: Option<Exception>): (r: Result<Transaction>)
    ensures r.Ok? <==> fault.None? && newId !in records
    ensures r.Ok? ==> r.value.id == newId && r.value.installments == installments
    ensures r.Ok? ==> FieldsOf(r.value) == f.(userId := Some(f.userId.GetOr(freshOwner)))
    ensures r.Err? && fault.Some? ==> r.error == fault.value
  {
    if fault.Some? then Err(fault.value)
    else if newId in records then Err(IntegrityError(DuplicateKey))
    else Ok(NewTransaction(f, newId, f.userId.GetOr(freshOwner), installments))
  }

  /** The table after an insertion attempt: unchanged unless the row was stored. */
  function Stored(records: map<string, Transaction>, r: Result<Transaction>): map<string, Transaction> {
    if r.Ok? then records[r.value.id := r.value] else records
  }

  datatype TransactionCall =
    | CreateCall(kwargs: Kwargs)
    | CreateWithInstallmentsCall(fields: TransactionFields, installments: seq<Installment>)
    | RollbackCall

  /** The transactions table. */
  class TransactionStore {
    var records: map<string, Transaction>
    var log: seq<TransactionCall>

    /** Every row is filed under its own id. */
    predicate Valid()
      reads this
    {
      forall id :: id in records ==> records[id].id == id
    }

    constructor()
      ensures records == map[] && log == [] && Valid()
    {
      records := map[];
      log := [];
    }

    /** The row with this id, provided it belongs to `owner`. */
    function GetById(id: string, owner: string): (r: Option<Transaction>)
      reads this
      ensures r.Some? <==> id in records && records[id].userId == owner
      ensures r.Some? ==> r.value == records[id]
    {
      if id in records && records[id].userId == owner then Some(records[id]) else None
    }

    /** `create(**kwargs)`: a name that is not a column is refused before anything is added. */
    method Create(kw: Kwargs, newId: string, freshOwner: string, fault: Option<Exception>)
      returns (r: Result<Transaction>)
      requires Valid()
      modifies this
      ensures Valid()
      ensures r == (if kw.extra != [] then Err(TypeError(InvalidKeyword(kw.extra[0])))
                    else Insert(old(records), kw.fields, [], newId, freshOwner, fault))
      ensures records == Stored(old(records), r)
      ensures log == old(log) + [CreateCall(kw)]
    {
      log := log + [CreateCall(kw)];
      if kw.extra != [] {
        return Err(TypeError(InvalidKeyword(kw.extra[0])));
      }
      r := Insert(records, kw.fields, [], newId, freshOwner, fault);
      if r.Ok? {
        records := records[newId := r.value];
      }
    }

    /** `create_with_installments`: the row and its installments are committed together. */
    method CreateWithInstallments(f: TransactionFields, installments: seq<Installment>,
                                  newId: string, freshOwner: string, fault: Option<Exception>)
      returns (r: Result<Transaction>)
      requires Valid()
      modifies this
      ensures Valid()
      ensures r == Insert(old(records), f, installments, newId, freshOwner, fault)
      ensures records == Stored(old(records), r)
      ensures log == old(log) + [CreateWithInstallmentsCall(f, installments)]
    {
      log := log + [CreateWithInstallmentsCall(f, installments)];
      r := Insert(records, f, installments, newId, freshOwner, fault);
      if r.Ok? {
        records := records[newId := r.value];
      }
    }

    /** Undoes uncommitted work; every failed call above left the table as it was. */
    method Rollback()
      modifies this
      ensures records == old(records)
      ensures log == old(log) + [RollbackCall]
    {
      log := log + [RollbackCall];
    }
  }

  /** How often `call` occurs in `log` (what a mock's call count reports). */
  function Count<T(==)>(log: seq<T>, call: T): (n: nat)
    ensures n <= |log|
    ensures n == 0 <==> call !in log
  {
    if log == [] then 0 else (if log[0] == call then 1 else 0) + Count(log[1..], call)
  }

  lemma {:induction false} CountAppend<T>(log: seq<T>, extra: seq<T>, call: T)
    ensures Count(log + extra, call) == Count(log, call) + Count(extra, call)
  {
    if log == [] {
      assert log + extra == extra;
    } else {
      assert (log + extra)[1..] == log[1..] + extra;
      CountAppend(log[1..], extra, call);
    }
  }

  // ---------------------------------------------------------------- credit cards

  /** The keyword arguments a credit card is created from (`user_id` from the caller). */
  datatype CardFields = CardFields(name: string, limit: int, invoiceStartDay: int, userId: Option<string>)

  /** The fields of an update request that were supplied; the others are left alone. */
  datatype CardPatch = CardPatch(name: Option<string>, limit: Option<int>, invoiceStartDay: Option<int>)

  /** Sets each supplied attribute and no other. */
  function Patched(c: CreditCard, p: CardPatch): (r: CreditCard)
    ensures r.id == c.id && r.userId == c.userId
    ensures r.name == p.name.GetOr(c.name)
    ensures r.limit == p.limit.GetOr(c.limit)
    ensures r.invoiceStartDay == p.invoiceStartDay.GetOr(c.invoiceStartDay)
  {
    c.(name := p.name.GetOr(c.name),
       limit := p.limit.GetOr(c.limit),
       invoiceStartDay := p.invoiceStartDay.GetOr(c.invoiceStartDay))
  }

  datatype CardCall =
    | CardCreateCall(fields: CardFields)
    | CardUpdateCall(id: string, patch: CardPatch)
    | CardDeleteCall(id: string)

  /** The credit-cards table. */
  class CreditCardStore {
    var cards: map<string, CreditCard>
    var log: seq<CardCall>

    predicate Valid()
      reads this
    {
      forall id :: id in cards ==> cards[id].id == id
    }

    constructor()
      ensures cards == map[] && log == [] && Valid()
    {
      cards := map[];
      log := [];
    }

    /** The card with this id, provided it belongs to `owner`. */
    function GetById(id: string, owner: string): (r: Option<CreditCard>)
      reads this
      ensures r.Some? <==> id in cards && cards[id].userId == owner
      ensures r.Some? ==> r.value == cards[id]
    {
      if id in cards && cards[id].userId == owner then Some(cards[id]) else None
    }

    /** The cards of `owner`. */
    function Owned(owner: string): set<CreditCard>
      reads this
    {
      set id | id in cards && cards[id].userId == owner :: cards[id]
    }

    /** Every card of `owner`, once each, in no particular order. */
    method GetAll(owner: string) returns (r: seq<CreditCard>)
      ensures Distinct(r)
      ensures forall c :: c in r <==> c in cards.Values && c.userId == owner
    {
      r := Enumerate(Owned(owner));
    }

    method Create(f: CardFields, newId: string, freshOwner: string, fault: Option<Exception>)
      returns (r: Result<CreditCard>)
      requires Valid()
      modifies this
      ensures Valid()
      ensures r.Ok? <==> fault.None? && newId !in old(cards)
      ensures r.Ok? ==> r.value == CreditCard(newId, f.userId.GetOr(freshOwner), f.name, f.limit, f.invoiceStartDay)
      ensures r.Err? ==> r.error == (if fault.Some? then fault.value else IntegrityError(DuplicateKey))
      ensures cards == (if r.Ok? then old(cards)[newId := r.value] else old(cards))
      ensures log == old(log) + [CardCreateCall(f)]
    {
      log := log + [CardCreateCall(f)];
      if fault.Some? {
        return Err(fault.value);
      }
      if newId in cards {
        return Err(IntegrityError(DuplicateKey));
      }
      var c := CreditCard(newId, f.userId.GetOr(freshOwner), f.name, f.limit, f.invoiceStartDay);
      cards := cards[newId := c];
      r := Ok(c);
    }

    /** Sets the supplied attributes on a stored card and commits. */
    method Update(card: CreditCard, p: CardPatch, fault: Option<Exception>) returns (r: Result<CreditCard>)
      requires Valid() && card.id in cards
      modifies this
      ensures Valid()
      ensures r == (if fault.Some? then Err(fault.value) else Ok(Patched(card, p)))
      ensures cards == (if r.Ok? then old(cards)[card.id := r.value] else old(cards))
      ensures log == old(log) + [CardUpdateCall(card.id, p)]
    {
      log := log + [CardUpdateCall(card.id, p)];
      if fault.Some? {
        return Err(fault.value);
      }
      var c := Patched(card, p);
      cards := cards[card.id := c];
      r := Ok(c);
    }

    method Delete(card: CreditCard, fault: Option<Exception>) returns (r: Result<CreditCard>)
      requires Valid()
      modifies this
      ensures Valid()
      ensures r == (if fault.Some? then Err(fault.value) else Ok(card))
      ensures cards == (if r.Ok? then old(cards) - {card.id} else old(cards))
      ensures log == old(log) + [CardDeleteCall(card.id)]
    {
      log := log + [CardDeleteCall(card.id)];
      if fault.Some? {
        return Err(fault.value);
      }
      cards := cards - {card.id};
      r := Ok(card);
    }
  }

  // ---------------------------------------------------------------- categories

  /** The categories table, shared by every user. */
  class CategoryStore {
    var categories: map<string, Category>

    constructor(initial: map<string, Category>)
      requires forall id :: id in initial ==> initial[id].id == id
      ensures categories == initial
      ensures Valid()
    {
      categories := initial;
    }

    /** Every category is filed under its own id. */
    predicate Valid()
      reads this
    {
      forall id :: id in categories ==> categories[id].id == id
    }

    function GetById(id: string): (r: Option<Category>)
      reads this
      ensures r.Some? <==> id in categories
      ensures r.Some? ==> r.value == categories[id]
      ensures Valid() && r.Some? ==> r.value.id == id
    {
      if id in categories then Some(categories[id]) else None
    }

    /** Every category once, in no particular order. */
    method GetAll() returns (r: seq<Category>)
      ensures Distinct(r)
      ensures forall c :: c in r <==> c in categories.Values
    {
      r := Enumerate(categories.Values);
    }
  }

  // ---------------------------------------------------------------- users

  datatype User = User(username: string, email: string, hashedPassword: string)

  /** The users table; lookups return the first matching row. */
  class UserStore {
    var users: seq<User>

    constructor(initial: seq<User>)
      ensures users == initial
    {
      users := initial;
    }

    function GetByEmail(email: string): (r: Option<User>)
      reads this
      ensures r.Some? <==> exists i :: 0 <= i < |users| && users[i].email == email
      ensures r.Some? ==> r.value in users && r.value.email == email
    {
      FirstWith(users, (u: User) => u.email == email)
    }

    function GetByUsername(username: string): (r: Option<User>)
      reads this
      ensures r.Some? <==> exists i :: 0 <= i < |users| && users[i].username == username
      ensures r.Some? ==> r.value in users && r.value.username == username
    {
      FirstWith(users, (u: User) => u.username == username)
    }

    method Create(u: User, fault: Option<Exception>) returns (r: Result<User>)
      modifies this
      ensures r == (if fault.Some? then Err(fault.value) else Ok(u))
      ensures users == (if r.Ok? then old(users) + [u] else old(users))
    {
      if fault.Some? {
        return Err(fault.value);
      }
      users := users + [u];
      r := Ok(u);
    }
  }

  /** The first element satisfying `p`, if any. */
  function FirstWith<T>(s: seq<T>, p: T -> bool): (r: Option<T>)
    ensures r.Some? <==> exists i :: 0 <= i < |s| && p(s[i])
    ensures r.Some? ==> r.value in s && p(r.value)
    ensures r.Some? ==> exists i :: 0 <= i < |s| && s[i] == r.value && forall j :: 0 <= j < i ==> !p(s[j])
  {
    if s == [] then None
    else if p(s[0]) then Some(s[0])
    else
      var r := FirstWith(s[1..], p);
      assert forall i :: 0 <= i < |s| - 1 ==> s[1..][i] == s[i + 1];
      r
  }
}
