/**
 * The member's net-balance screen: money totals over paid transactions, the
 * five largest deposits and withdrawals, a six-month running balance, the
 * income/expense pie and a day-by-day cash-flow calendar of the current
 * month. Dates of transactions (`new Date(t.createdAt)` in local time) and
 * the current date (`new Date()`) are parameters.
 */
module NetBalance {
  import opened Wrappers
  import opened Ledger
  import opened Balance
  import opened Calendar
  import MemberDetails
  import GroupDetails

  /** The month a transaction falls in. */
  function MonthKey(dateOf: int -> Day): Transaction -> YearMonth {
    (t: Transaction) => MonthOf(dateOf(t.createdAt))
  }

  /** The day a transaction falls on. */
  function DayKey(dateOf: int -> Day): Transaction -> Day {
    (t: Transaction) => dateOf(t.createdAt)
  }

  // ----------------------------------------------------------- balance trend

  /** The running balance after the first `k + 1` months of the window. */
  function TrendBalance(s: seq<Transaction>, dateOf: int -> Day, w: seq<YearMonth>, k: nat): real
    requires k < |w|
  {
    KeyedSum(s, MonthKey(dateOf), w[..k + 1])
  }

  /** The trend's month labels. */
  function TrendMonths(today: Day): (ms: seq<string>)
    ensures |ms| == 6
  {
    seq(6, k requires 0 <= k < 6 => ShortName(Window(today)[k].month))
  }

  /** The trend's running balances. */
  function TrendBalances(s: seq<Transaction>, today: Day, dateOf: int -> Day): (bs: seq<real>)
    ensures |bs| == 6
  {
    seq(6, k requires 0 <= k < 6 => TrendBalance(s, dateOf, Window(today), k))
  }

  /**
   * `calculateBalanceTrend`: for each of the six months up to the current
   * one, its short name and the running sum of the signed amounts so far.
   */
  method BalanceTrend(transactions: seq<Transaction>, today: Day, dateOf: int -> Day)
    returns (months: seq<string>, balances: seq<real>)
    requires Valid(today)
    ensures months == TrendMonths(today) && balances == TrendBalances(transactions, today, dateOf)
  {
    var w := Window(today);
    months, balances := [], [];
    var runningBalance := 0.0;
    var i := 5;
    while i >= 0
      invariant -1 <= i <= 5
      invariant |months| == 5 - i && |balances| == 5 - i
      invariant runningBalance == KeyedSum(transactions, MonthKey(dateOf), w[..5 - i])
      invariant months == TrendMonths(today)[..5 - i]
      invariant balances == TrendBalances(transactions, today, dateOf)[..5 - i]
    {
      var date := MonthsBack(today, i);
      assert date == w[5 - i];
      PrefixSnoc(TrendMonths(today), 5 - i);
      months := months + [ShortName(date.month)];
      var monthTransactions := Filter(transactions, KeyIs(MonthKey(dateOf), date));
      var monthBalance := Net(monthTransactions);
      TrendStep(transactions, dateOf, w, 5 - i, runningBalance);
      runningBalance := runningBalance + monthBalance;
      PrefixSnoc(TrendBalances(transactions, today, dateOf), 5 - i);
      balances := balances + [runningBalance];
      i := i - 1;
    }
    assert TrendMonths(today)[..6] == TrendMonths(today);
    assert TrendBalances(transactions, today, dateOf)[..6] == TrendBalances(transactions, today, dateOf);
  }

  /** A prefix one longer is the prefix and the next element. */
  lemma PrefixSnoc<T>(s: seq<T>, n: nat)
    requires n < |s|
    ensures s[..n + 1] == s[..n] + [s[n]]
  {
  }

  /** One month more: the running balance so far plus that month's signed sum. */
  lemma TrendStep(s: seq<Transaction>, dateOf: int -> Day, w: seq<YearMonth>, n: nat, running: real)
    requires n < |w| && running == KeyedSum(s, MonthKey(dateOf), w[..n])
    ensures running + Net(Filter(s, KeyIs(MonthKey(dateOf), w[n]))) == TrendBalance(s, dateOf, w, n)
    ensures running + Net(Filter(s, KeyIs(MonthKey(dateOf), w[n]))) == KeyedSum(s, MonthKey(dateOf), w[..n + 1])
  {
    KeyedSumSnoc(s, MonthKey(dateOf), w, n);
  }

  /** The trend's last balance is the signed sum of the six months, each month counted once. */
  lemma {:induction false} TrendFinal(s: seq<Transaction>, today: Day, dateOf: int -> Day)
    requires Valid(today)
    ensures TrendBalance(s, dateOf, Window(today), 5) == Net(Filter(s, KeyIn(MonthKey(dateOf), Window(today))))
  {
    var w := Window(today);
    WindowConsecutive(today);
    assert w[..6] == w;
    KeyedSumDistinct(s, MonthKey(dateOf), w);
  }

  /** Consecutive running balances differ by one month's signed sum. */
  lemma {:induction false} TrendSteps(s: seq<Transaction>, dateOf: int -> Day, w: seq<YearMonth>)
    requires |w| > 0
    ensures TrendBalance(s, dateOf, w, 0) == Net(Filter(s, KeyIs(MonthKey(dateOf), w[0])))
    ensures forall k :: 0 < k < |w| ==>
              TrendBalance(s, dateOf, w, k) == TrendBalance(s, dateOf, w, k - 1) + Net(Filter(s, KeyIs(MonthKey(dateOf), w[k])))
  {
    KeyedSumSnoc(s, MonthKey(dateOf), w, 0);
    forall k | 0 < k < |w|
      ensures TrendBalance(s, dateOf, w, k) == TrendBalance(s, dateOf, w, k - 1) + Net(Filter(s, KeyIs(MonthKey(dateOf), w[k])))
    {
      KeyedSumSnoc(s, MonthKey(dateOf), w, k);
    }
  }

  /** The trend's final balance over the window the loop builds as written. */
  function AsWrittenTrendTotal(s: seq<Transaction>, today: Day, dateOf: int -> Day): real
    requires Valid(today)
  {
    KeyedSum(s, MonthKey(dateOf), AsWrittenWindow(today))
  }

  /**
   * On 31 May 2025 a single paid deposit made in May is counted twice by the
   * as-written trend, while the corrected trend ends at its amount.
   */
  lemma {:induction false} MayDepositCountedTwice(t: Transaction, dateOf: int -> Day)
    requires t.kind == Deposit && dateOf(t.createdAt) == Day(2025, 4, 12)
    ensures AsWrittenTrendTotal([t], Day(2025, 4, 31), dateOf) == 2.0 * t.amount
    ensures TrendBalance([t], dateOf, Window(Day(2025, 4, 31)), 5) == t.amount
  {
    var keyOf := MonthKey(dateOf);
    assert keyOf(t) == YearMonth(2025, 4);
    MayCounts();
    KeyedSumSingle(t, keyOf, AsWrittenWindow(Day(2025, 4, 31)));
    KeyedSumSingle(t, keyOf, Window(Day(2025, 4, 31))[..6]);
    assert Copies(2, t.amount) == Copies(1, t.amount) + t.amount;
  }

  // ----------------------------------------------------------- calendar

  datatype CalendarEntry = CalendarEntry(day: int, date: Day, balance: real, transactions: seq<Transaction>)

  /** One day of the calendar: the transactions dated that day and their signed sum. */
  function DayEntry(s: seq<Transaction>, year: int, month: int, day: int, dateOf: int -> Day): (e: CalendarEntry)
    ensures e.day == day && e.date == Day(year, month, day)
    ensures forall t :: t in e.transactions <==> t in s && dateOf(t.createdAt) == Day(year, month, day)
    ensures e.balance == Net(e.transactions)
  {
    var dayTransactions := Filter(s, KeyIs(DayKey(dateOf), Day(year, month, day)));
    FilterMemberAll(s, KeyIs(DayKey(dateOf), Day(year, month, day)));
    CalendarEntry(day, Day(year, month, day), Net(dayTransactions), dayTransactions)
  }

  /** `generateCalendarData`: one entry for each day of the month, in order. */
  method CalendarData(transactions: seq<Transaction>, month: int, year: int, dateOf: int -> Day)
    returns (calendar: seq<CalendarEntry>)
    requires 0 <= month < 12
    ensures |calendar| == DaysInMonth(year, month)
    ensures forall k :: 0 <= k < |calendar| ==> calendar[k] == DayEntry(transactions, year, month, k + 1, dateOf)
    ensures calendar == MonthCalendar(transactions, year, month, dateOf)
  {
    var daysInMonth := DaysInMonth(year, month);
    calendar := [];
    var day := 1;
    while day <= daysInMonth
      invariant 1 <= day <= daysInMonth + 1
      invariant |calendar| == day - 1
      invariant forall k :: 0 <= k < |calendar| ==> calendar[k] == DayEntry(transactions, year, month, k + 1, dateOf)
    {
      var date := Day(year, month, day);
      var dayTransactions := Filter(transactions, KeyIs(DayKey(dateOf), date));
      var dayBalance := Net(dayTransactions);
      calendar := calendar + [CalendarEntry(day, date, dayBalance, dayTransactions)];
      day := day + 1;
    }
    assert calendar == MonthCalendar(transactions, year, month, dateOf);
  }

  /** The days of a month, in order. */
  function DaysOf(year: int, month: int): (ds: seq<Day>)
    requires 0 <= month < 12
    ensures |ds| == DaysInMonth(year, month)
    ensures forall k :: 0 <= k < |ds| ==> ds[k] == Day(year, month, k + 1)
  {
    seq(DaysInMonth(year, month), k => Day(year, month, k + 1))
  }

  /** The calendar a month has, entry by entry. */
  function MonthCalendar(s: seq<Transaction>, year: int, month: int, dateOf: int -> Day): (c: seq<CalendarEntry>)
    requires 0 <= month < 12
    ensures |c| == DaysInMonth(year, month)
  {
    seq(DaysInMonth(year, month), k => DayEntry(s, year, month, k + 1, dateOf))
  }

  /** The day balances of a calendar, added up. */
  function SumBalances(c: seq<CalendarEntry>): real {
    if c == [] then 0.0 else SumBalances(c[..|c| - 1]) + c[|c| - 1].balance
  }

  /** Day balances that are each day's signed sum add up to the keyed sum over those days. */
  lemma {:induction false} SumBalancesKeyed(c: seq<CalendarEntry>, ds: seq<Day>, s: seq<Transaction>,
                                            dateOf: int -> Day, k: nat)
    requires |c| == |ds| && k <= |c|
    requires forall i :: 0 <= i < |c| ==> c[i].balance == Net(Filter(s, KeyIs(DayKey(dateOf), ds[i])))
    ensures SumBalances(c[..k]) == KeyedSum(s, DayKey(dateOf), ds[..k])
    decreases k
  {
    if k > 0 {
      SumBalancesKeyed(c, ds, s, dateOf, k - 1);
      assert c[..k][..k - 1] == c[..k - 1];
      KeyedSumSnoc(s, DayKey(dateOf), ds, k - 1);
    }
  }

  /** The calendar's balances over its first `k` days are the keyed sum over those days. */
  lemma SumBalancesPrefix(s: seq<Transaction>, year: int, month: int, dateOf: int -> Day, k: nat)
    requires 0 <= month < 12 && k <= DaysInMonth(year, month)
    ensures SumBalances(MonthCalendar(s, year, month, dateOf)[..k]) == KeyedSum(s, DayKey(dateOf), DaysOf(year, month)[..k])
  {
    var c, ds := MonthCalendar(s, year, month, dateOf), DaysOf(year, month);
    forall i | 0 <= i < |c|
      ensures c[i].balance == Net(Filter(s, KeyIs(DayKey(dateOf), ds[i])))
    {
      EntryBalance(s, year, month, dateOf, i);
    }
    SumBalancesKeyed(c, ds, s, dateOf, k);
  }

  /** The `k`-th entry's balance is the signed sum of the transactions on the `k`-th day. */
  lemma EntryBalance(s: seq<Transaction>, year: int, month: int, dateOf: int -> Day, k: nat)
    requires 0 <= month < 12 && k < DaysInMonth(year, month)
    ensures MonthCalendar(s, year, month, dateOf)[k].balance
            == Net(Filter(s, KeyIs(DayKey(dateOf), DaysOf(year, month)[k])))
  {
    var e := DayEntry(s, year, month, k + 1, dateOf);
    assert MonthCalendar(s, year, month, dateOf)[k] == e;
  }

  /** A date that exists is one of its month's days, and of no other month's. */
  lemma {:induction false} DayInMonth(d: Day, year: int, month: int)
    requires Valid(d) && 0 <= month < 12
    ensures d in DaysOf(year, month) <==> MonthOf(d) == YearMonth(year, month)
  {
    if MonthOf(d) == YearMonth(year, month) {
      assert DaysOf(year, month)[d.day - 1] == d;
    }
  }

  /**
   * When every transaction has a real date, the calendar's day balances add up
   * to the month's signed sum: each transaction of the month is on exactly one day.
   */
  lemma {:induction false} CalendarCoversMonth(s: seq<Transaction>, year: int, month: int, dateOf: int -> Day)
    requires 0 <= month < 12
    requires forall i :: 0 <= i < |s| ==> Valid(dateOf(s[i].createdAt))
    ensures SumBalances(MonthCalendar(s, year, month, dateOf)) == Net(Filter(s, KeyIs(MonthKey(dateOf), YearMonth(year, month))))
  {
    var c, ds := MonthCalendar(s, year, month, dateOf), DaysOf(year, month);
    SumBalancesPrefix(s, year, month, dateOf, |c|);
    assert c[..|c|] == c && ds[..|ds|] == ds;
    KeyedSumDistinct(s, DayKey(dateOf), ds);
    forall i | 0 <= i < |s|
      ensures KeyIn(DayKey(dateOf), ds)(s[i]) == KeyIs(MonthKey(dateOf), YearMonth(year, month))(s[i])
    {
      DayInMonth(dateOf(s[i].createdAt), year, month);
    }
    FilterExt(s, KeyIn(DayKey(dateOf), ds), KeyIs(MonthKey(dateOf), YearMonth(year, month)));
  }

  // ----------------------------------------------------------- the stats

  /** A slice of the income/expense pie. */
  datatype PieSlice = PieSlice(name: string, amount: real, color: string, legendFontColor: string)

  const IncomeColor := "#4CAF50"
  const ExpenseColor := "#FF5252"
  const LegendColor := "#7F7F7F"

  /** What `calculateEnhancedBalanceStats` returns: an empty object without a transaction list. */
  datatype BalanceStats =
    | NoStats
    | BalanceStats(totalDeposit: real, totalWithdrawal: real, netAmount: real,
                   depositCount: nat, withdrawalCount: nat, totalTransactions: nat,
                   pendingCount: nat, approvedCount: nat, rejectedCount: nat,
                   largestDeposits: seq<Transaction>, largestWithdrawals: seq<Transaction>,
                   trendMonths: seq<string>, trendBalances: seq<real>,
                   incomeExpense: seq<PieSlice>, calendar: seq<CalendarEntry>,
                   allTransactions: seq<Transaction>)

  /** The sort key `b.amount - a.amount`. */
  function AmountKey(t: Transaction): real {
    t.amount
  }

  /** The member's paid transactions. */
  function PaidOf(s: seq<Transaction>, m: Member): seq<Transaction> {
    Filter(Filter(s, MemberDetails.ByMember(m)), StatusIs(Paid))
  }

  /** The stats the screen computes on its first render, when the calendar shows the current month. */
  function StatsOf(txs: Option<seq<Transaction>>, m: Member, today: Day, dateOf: int -> Day): BalanceStats
    requires Valid(today)
  {
    match txs
    case None => NoStats
    case Some(s) =>
      var mine := Filter(s, MemberDetails.ByMember(m));
      var paid := Filter(mine, StatusIs(Paid));
      var paidDeposits := Filter(paid, IsDeposit);
      var paidWithdrawals := Filter(paid, IsWithdrawal);
      var totalDeposit := Total(paidDeposits);
      var totalWithdrawal := Total(paidWithdrawals);
      BalanceStats(totalDeposit, totalWithdrawal, totalDeposit - totalWithdrawal,
                   |paidDeposits|, |paidWithdrawals|, |paid|,
                   CountStatus(mine, Pending), CountStatus(mine, Approved), CountStatus(mine, Rejected),
                   Take(SortDesc(paidDeposits, AmountKey), 5), Take(SortDesc(paidWithdrawals, AmountKey), 5),
                   TrendMonths(today), TrendBalances(paid, today, dateOf),
                   [PieSlice("Income", totalDeposit, IncomeColor, LegendColor),
                    PieSlice("Expenses", totalWithdrawal, ExpenseColor, LegendColor)],
                   MonthCalendar(paid, today.year, today.month, dateOf),
                   SortDesc(paid, GroupDetails.CreatedKey))
  }

  /** `calculateEnhancedBalanceStats`, with the trend and calendar loops run as above. */
  method EnhancedBalanceStats(txs: Option<seq<Transaction>>, m: Member, today: Day, dateOf: int -> Day)
    returns (r: BalanceStats)
    requires Valid(today)
    ensures txs.None? <==> r.NoStats?
    ensures r == StatsOf(txs, m, today, dateOf)
  {
    if txs.None? {
      return NoStats;
    }
    var mine := Filter(txs.value, MemberDetails.ByMember(m));
    var paid := Filter(mine, StatusIs(Paid));
    var paidDeposits := Filter(paid, IsDeposit);
    var paidWithdrawals := Filter(paid, IsWithdrawal);
    var totalDeposit := Total(paidDeposits);
    var totalWithdrawal := Total(paidWithdrawals);
    var netAmount := totalDeposit - totalWithdrawal;
    var largestDeposits := Take(SortDesc(paidDeposits, AmountKey), 5);
    var largestWithdrawals := Take(SortDesc(paidWithdrawals, AmountKey), 5);
    var months, balances := BalanceTrend(paid, today, dateOf);
    var incomeExpenseData := [PieSlice("Income", totalDeposit, IncomeColor, LegendColor),
                              PieSlice("Expenses", totalWithdrawal, ExpenseColor, LegendColor)];
    var calendarData := CalendarData(paid, today.month, today.year, dateOf);
    r := BalanceStats(totalDeposit, totalWithdrawal, netAmount,
                      |paidDeposits|, |paidWithdrawals|, |paid|,
                      CountStatus(mine, Pending), CountStatus(mine, Approved), CountStatus(mine, Rejected),
                      largestDeposits, largestWithdrawals, months, balances, incomeExpenseData, calendarData,
                      SortDesc(paid, GroupDetails.CreatedKey));
  }

  /**
   * The money figures are the member screen's: paid deposits in, paid
   * withdrawals out, and the net is the member's share of the paid balance.
   * The pie chart's two slices carry the same two totals.
   */
  lemma StatsMatchMemberScreen(txs: Option<seq<Transaction>>, m: Member, today: Day, dateOf: int -> Day)
    requires Valid(today) && txs.Some?
    ensures var r, member := StatsOf(txs, m, today, dateOf), MemberDetails.CalculateMemberStats(txs, m);
            && r.totalDeposit == member.totalDeposit
            && r.totalWithdrawal == member.totalWithdrawal
            && r.netAmount == member.netAmount == PaidBalance(Some(Filter(txs.value, MemberDetails.ByMember(m))))
            && r.totalTransactions == member.paidRequests
            && r.pendingCount == member.pendingRequests
            && r.approvedCount == member.approvedRequests
            && r.rejectedCount == member.rejectedRequests
            && |r.incomeExpense| == 2
            && r.incomeExpense[0].amount == r.totalDeposit && r.incomeExpense[1].amount == r.totalWithdrawal
  {
  }

  /** The deposit and withdrawal counts split the paid transactions. */
  lemma {:induction false} StatsCountsSplit(txs: Option<seq<Transaction>>, m: Member, today: Day, dateOf: int -> Day)
    requires Valid(today) && txs.Some?
    ensures var r := StatsOf(txs, m, today, dateOf);
            r.depositCount + r.withdrawalCount == r.totalTransactions
  {
    KindsSplit(PaidOf(txs.value, m));
  }

  /** The largest lists hold at most five of the paid deposits (withdrawals), largest first and none larger left out. */
  lemma {:induction false} StatsLargest(txs: Option<seq<Transaction>>, m: Member, today: Day, dateOf: int -> Day)
    requires Valid(today) && txs.Some?
    ensures var r, paid := StatsOf(txs, m, today, dateOf), PaidOf(txs.value, m);
            && var deposits, withdrawals := Filter(paid, IsDeposit), Filter(paid, IsWithdrawal);
            && |r.largestDeposits| == (if |deposits| <= 5 then |deposits| else 5)
            && SortedDesc(r.largestDeposits, AmountKey)
            && multiset(r.largestDeposits) <= multiset(deposits)
            && (forall i, j :: 0 <= i < |r.largestDeposits| <= j < |deposits| ==>
                  r.largestDeposits[i].amount >= SortDesc(deposits, AmountKey)[j].amount)
            && |r.largestWithdrawals| == (if |withdrawals| <= 5 then |withdrawals| else 5)
            && SortedDesc(r.largestWithdrawals, AmountKey)
            && multiset(r.largestWithdrawals) <= multiset(withdrawals)
            && (forall i, j :: 0 <= i < |r.largestWithdrawals| <= j < |withdrawals| ==>
                  r.largestWithdrawals[i].amount >= SortDesc(withdrawals, AmountKey)[j].amount)
  {
    var paid := PaidOf(txs.value, m);
    TopIsLargest(Filter(paid, IsDeposit), AmountKey, 5);
    TopIsLargest(Filter(paid, IsWithdrawal), AmountKey, 5);
  }

  /** The trend ends at the signed sum over the six months; the list is every paid transaction, newest first. */
  lemma {:induction false} StatsTrendAndList(txs: Option<seq<Transaction>>, m: Member, today: Day, dateOf: int -> Day)
    requires Valid(today) && txs.Some?
    ensures var r, paid := StatsOf(txs, m, today, dateOf), PaidOf(txs.value, m);
            && r.trendBalances[5] == Net(Filter(paid, KeyIn(MonthKey(dateOf), Window(today))))
            && SortedDesc(r.allTransactions, GroupDetails.CreatedKey)
            && multiset(r.allTransactions) == multiset(paid)
  {
    var paid := PaidOf(txs.value, m);
    TrendFinal(paid, today, dateOf);
    SortDescFacts(paid, GroupDetails.CreatedKey);
  }

  /** With every transaction dated on a real day, the calendar's days add up to the month's paid net. */
  lemma {:induction false} StatsCalendarCoversMonth(txs: Option<seq<Transaction>>, m: Member, today: Day, dateOf: int -> Day)
    requires Valid(today) && txs.Some?
    requires forall i :: 0 <= i < |txs.value| ==> Valid(dateOf(txs.value[i].createdAt))
    ensures var r, paid := StatsOf(txs, m, today, dateOf), PaidOf(txs.value, m);
            SumBalances(r.calendar) == Net(Filter(paid, KeyIs(MonthKey(dateOf), MonthOf(today))))
  {
    var s := txs.value;
    var mine := Filter(s, MemberDetails.ByMember(m));
    var paid := PaidOf(s, m);
    forall i | 0 <= i < |paid| ensures Valid(dateOf(paid[i].createdAt)) {
      FilterSublistIn(s, MemberDetails.ByMember(m), paid[i]);
    }
    CalendarCoversMonth(paid, today.year, today.month, dateOf);
  }

  /** What two filters keep from a list comes from the list. */
  lemma FilterSublistIn(s: seq<Transaction>, p: Transaction -> bool, t: Transaction)
    requires t in Filter(Filter(s, p), StatusIs(Paid))
    ensures t in s
  {
    FilterMember(Filter(s, p), StatusIs(Paid), t);
    FilterMember(s, p, t);
  }

  /** Every transaction is a deposit or a withdrawal, never both. */
  lemma {:induction false} KindsSplit(s: seq<Transaction>)
    ensures |Filter(s, IsDeposit)| + |Filter(s, IsWithdrawal)| == |s|
    decreases |s|
  {
    if s != [] {
      KindsSplit(s[1..]);
    }
  }
}
