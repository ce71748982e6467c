/** The persisted entities: credit cards, categories, transactions and their installments. */
module Domain {
  import opened Outcomes
  import opened Dates

  /** The payment channel of a transaction. */
  datatype Kind = Credit | Debit | Transfer | Pix | Cash

  datatype Category = Category(id: string, description: string)

  /** `limit` is in cents. */
  datatype CreditCard = CreditCard(id: string, userId: string, name: string, limit: int, invoiceStartDay: int)

  /** One installment row: its 1-based number, due date and amount in cents. */
  datatype Installment = Installment(number: int, date: Date, amount: int)

  /**
   * The keyword arguments a `Transaction` row is built from. A field given as None is
   * stored as NULL, except `userId`, whose column default draws a fresh identifier.
   */
  datatype TransactionFields = TransactionFields(
    description: string,
    amount: int,
    isFixed: bool,
    isRevenue: bool,
    date: Option<Date>,
    recurringDay: Option<int>,
    kind: Kind,
    categoryId: string,
    userId: Option<string>,
    creditCardId: Option<string>)

  /** Keyword arguments: the known columns plus any names that are not columns at all. */
  datatype Kwargs = Kwargs(fields: TransactionFields, extra: seq<string>)

  /** A stored transaction, owned by `userId`, with the installments stored with it. */
  datatype Transaction = Transaction(
    id: string,
    description: string,
    amount: int,
    isFixed: bool,
    isRevenue: bool,
    date: Option<Date>,
    recurringDay: Option<int>,
    kind: Kind,
    categoryId: string,
    userId: string,
    creditCardId: Option<string>,
    installments: seq<Installment>)

  /** A stored transaction together with the category and card its relationships load. */
  datatype LoadedTransaction = LoadedTransaction(
    record: Transaction, category: Option<Category>, creditCard: Option<CreditCard>)

  /** The row built from `fields`, identified by `id` and owned by `owner`. */
  function NewTransaction(f: TransactionFields, id: string, owner: string, installments: seq<Installment>): (t: Transaction)
    ensures t.id == id && t.userId == owner && t.installments == installments
    ensures FieldsOf(t) == f.(userId := Some(owner))
  {
    Transaction(id, f.description, f.amount, f.isFixed, f.isRevenue, f.date, f.recurringDay,
                f.kind, f.categoryId, owner, f.creditCardId, installments)
  }

  /** The column values of a stored row, as keyword arguments. */
  function FieldsOf(t: Transaction): TransactionFields {
    TransactionFields(t.description, t.amount, t.isFixed, t.isRevenue, t.date, t.recurringDay,
                      t.kind, t.categoryId, Some(t.userId), t.creditCardId)
  }
}
