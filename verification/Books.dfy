/**
 * The two tables every payment goes through: `users` with its three counters, and
 * `balance_ledgers` with its partial UNIQUE index. Earning, payouts and ads share them.
 */
module Books {
  import opened Common

  /** The three earning surfaces; each passes its own ledger reason and reference type. */
  datatype Surface = PtcView | ShortlinkClick | InternalArticleView

  datatype SessionKey = SessionKey(surface: Surface, id: nat)

  datatype Reason =
    | Reward(surface: Surface)
    | ReferralCommission
    | WithdrawRequest
    | WithdrawRefund
    | WithdrawRejected
    | AdFunding
    | AdRefund

  /** `reference_type` and `reference_id` of a ledger row. */
  datatype Ref = SessionRef(key: SessionKey) | WithdrawalRef(id: nat) | AdRef(id: nat)

  /** The part of the program that writes a row. */
  datatype Area = Earning | Payouts | Ads

  function AreaOf(reason: Reason): Area {
    match reason
    case Reward(_) => Earning
    case ReferralCommission => Earning
    case AdFunding => Ads
    case AdRefund => Ads
    case _ => Payouts
  }

  function AreaOfRef(ref: Ref): Area {
    match ref
    case SessionRef(_) => Earning
    case WithdrawalRef(_) => Payouts
    case AdRef(_) => Ads
  }

  datatype LedgerRow = LedgerRow(user: nat, delta: int, reason: Reason, ref: Ref)

  datatype User = User(balance: int, totalEarned: int, totalWithdrawn: int, referrer: Option<nat>)

  datatype Book = Book(users: map<nat, User>, ledger: seq<LedgerRow>)

  const BLANK := Book(map[], [])

  // ----- Writing -----

  /** The partial UNIQUE index on (reason, reference_type, reference_id). */
  predicate IndexFree(ledger: seq<LedgerRow>, reason: Reason, ref: Ref) {
    forall i :: 0 <= i < |ledger| ==> !(ledger[i].reason == reason && ledger[i].ref == ref)
  }

  /** The counters a row moves: the balance always, `total_earned_sat` for rewards and commissions. */
  function Moved(user: User, delta: int, reason: Reason): User {
    user.(balance := user.balance + delta,
          totalEarned := user.totalEarned + if AreaOf(reason) == Earning then delta else 0)
  }

  /** A ledger row and the matching counters; None when a constraint refuses the row. */
  function Post(books: Book, user: nat, delta: int, reason: Reason, ref: Ref): Option<Book> {
    if user !in books.users || !IndexFree(books.ledger, reason, ref) then None
    else
      Some(Book(
        books.users[user := Moved(books.users[user], delta, reason)],
        books.ledger + [LedgerRow(user, delta, reason, ref)]))
  }

  /** `Post` by a transaction that rolls back when the row is refused. */
  function PostOrKeep(books: Book, user: nat, delta: int, reason: Reason, ref: Ref): Book {
    match Post(books, user, delta, reason, ref)
    case None => books
    case Some(posted) => posted
  }

  /** The increment of `total_withdrawn_sat` when a payout settles. */
  function CountPayout(books: Book, user: nat, amount: int): Book {
    if user !in books.users then books
    else
      var row := books.users[user];
      books.(users := books.users[user := row.(totalWithdrawn := row.totalWithdrawn + amount)])
  }

  /** A new user joins if the referrer, when there is one, exists. */
  predicate MayEnroll(books: Book, user: nat, referrer: Option<nat>) {
    user !in books.users && (referrer.Some? ==> referrer.value in books.users)
  }

  function Enroll(books: Book, user: nat, referrer: Option<nat>): Book {
    if MayEnroll(books, user, referrer) then books.(users := books.users[user := User(0, 0, 0, referrer)]) else books
  }

  // ----- Reading -----

  /** The sum of a user's ledger deltas. */
  function SumFor(ledger: seq<LedgerRow>, user: nat): int {
    if ledger == [] then 0
    else
      var last := ledger[|ledger| - 1];
      SumFor(ledger[..|ledger| - 1], user) + (if last.user == user then last.delta else 0)
  }

  /** The sum of a user's rewards and commissions. */
  function EarnedFor(ledger: seq<LedgerRow>, user: nat): int {
    if ledger == [] then 0
    else
      var last := ledger[|ledger| - 1];
      EarnedFor(ledger[..|ledger| - 1], user)
      + (if last.user == user && AreaOf(last.reason) == Earning then last.delta else 0)
  }

  lemma SumsAppend(ledger: seq<LedgerRow>, row: LedgerRow, user: nat)
    ensures SumFor(ledger + [row], user) == SumFor(ledger, user) + (if row.user == user then row.delta else 0)
    ensures EarnedFor(ledger + [row], user)
         == EarnedFor(ledger, user) + (if row.user == user && AreaOf(row.reason) == Earning then row.delta else 0)
  {
    assert (ledger + [row])[..|ledger|] == ledger;
  }

  lemma IndexAppend(ledger: seq<LedgerRow>, row: LedgerRow, reason: Reason, ref: Ref)
    ensures IndexFree(ledger + [row], reason, ref)
        <==> IndexFree(ledger, reason, ref) && !(row.reason == reason && row.ref == ref)
  {
    assert (ledger + [row])[|ledger|] == row;
    assert forall i :: 0 <= i < |ledger| ==> (ledger + [row])[i] == ledger[i];
  }

  // ----- What every transaction keeps -----

  /** A user's balance and earnings are what the ledger says; strangers have no rows. */
  ghost predicate Agrees(books: Book, u: nat) {
    && SumFor(books.ledger, u) == (if u in books.users then books.users[u].balance else 0)
    && EarnedFor(books.ledger, u) == (if u in books.users then books.users[u].totalEarned else 0)
  }

  ghost predicate Balanced(books: Book) {
    forall u: nat :: Agrees(books, u)
  }

  /** What the partial UNIQUE index demands. */
  ghost predicate RowsUnique(ledger: seq<LedgerRow>) {
    forall i, j :: 0 <= i < j < |ledger| ==>
      !(ledger[i].reason == ledger[j].reason && ledger[i].ref == ledger[j].ref)
  }

  /** The foreign keys on users. */
  ghost predicate ReferrersExist(users: map<nat, User>) {
    forall u :: u in users && users[u].referrer.Some? ==> users[u].referrer.value in users
  }

  ghost predicate Consistent(books: Book) {
    Balanced(books) && RowsUnique(books.ledger) && ReferrersExist(books.users)
  }

  lemma PostKeepsBooks(books: Book, user: nat, delta: int, reason: Reason, ref: Ref)
    requires Consistent(books)
    ensures Consistent(PostOrKeep(books, user, delta, reason, ref))
  {
    var posted := PostOrKeep(books, user, delta, reason, ref);
    if posted != books {
      forall u: nat ensures Agrees(posted, u) {
        SumsAppend(books.ledger, LedgerRow(user, delta, reason, ref), u);
        assert Agrees(books, u);
      }
    }
  }

  lemma EnrollKeepsBooks(books: Book, user: nat, referrer: Option<nat>)
    requires Consistent(books)
    ensures Consistent(Enroll(books, user, referrer))
  {
    forall u: nat ensures Agrees(Enroll(books, user, referrer), u) {
      assert Agrees(books, u);
    }
  }

  lemma CountPayoutKeepsBooks(books: Book, user: nat, amount: int)
    requires Consistent(books)
    ensures Consistent(CountPayout(books, user, amount))
  {
    forall u: nat ensures Agrees(CountPayout(books, user, amount), u) {
      assert Agrees(books, u);
    }
  }

  // ----- Transactions as moves on the books -----

  /** What a transaction of one area does to the tables of all. */
  datatype Move = Posting(user: nat, delta: int, reason: Reason, ref: Ref) | Counting(user: nat, amount: int)

  /** Rows belong to the area of their reason and reference; only payouts count withdrawals. */
  predicate MoveOf(m: Move, area: Area) {
    match m
    case Posting(_, _, reason, ref) => AreaOf(reason) == area && AreaOfRef(ref) == area
    case Counting(_, _) => area == Payouts
  }

  predicate MovesOf(moves: seq<Move>, area: Area) {
    forall m :: m in moves ==> MoveOf(m, area)
  }

  function Moving(books: Book, m: Move): Book {
    match m
    case Posting(user, delta, reason, ref) => PostOrKeep(books, user, delta, reason, ref)
    case Counting(user, amount) => CountPayout(books, user, amount)
  }

  function MovingAll(books: Book, moves: seq<Move>): Book
    decreases |moves|
  {
    if moves == [] then books else MovingAll(Moving(books, moves[0]), moves[1..])
  }

  lemma MovingOne(books: Book, m: Move)
    ensures MovingAll(books, [m]) == Moving(books, m)
  {
    assert MovingAll(Moving(books, m), [m][1..]) == Moving(books, m);
  }
}
