/** The client dashboard's display arithmetic: hours used, included and
    remaining, the remaining-hours bar, the plan/price/status defaults shown
    when there is no subscription, the greeting name and the history lists. */
module Dashboard {
  import opened Js
  import opened Text
  import opened Lists

  datatype Subscription = Subscription(
    id: string,
    plan: string,
    status: string,
    hoursIncluded: real,
    hoursUsed: real,
    price: real,
    billingCycle: string,
    nextBillingDate: Option<string>)

  datatype ServiceEntry = ServiceEntry(
    id: string,
    serviceName: string,
    description: Option<string>,
    hoursUsed: real,
    date: string,
    status: string)

  /** Rows the history query returns at most (`limit(10)`). */
  const HistoryLimit: nat := 10
  /** Entries the overview tab shows (`slice(0, 3)`). */
  const OverviewLimit: nat := 3
  /** Hours assumed when the subscription gives none. */
  const DefaultHoursIncluded: real := 20.0

  /** `subscription?.hours_used || 0`. */
  function HoursUsed(sub: Option<Subscription>): (r: real)
    ensures sub.None? ==> r == 0.0
    ensures sub.Some? ==> r == sub.value.hoursUsed
  {
    match sub
    case None => 0.0
    case Some(s) => NumOr(s.hoursUsed, 0.0)
  }

  /** `subscription?.hours_included || 20`: never zero, so it is a safe
      denominator for the usage percentage. */
  function HoursIncluded(sub: Option<Subscription>): (r: real)
    ensures r != 0.0
    ensures sub.None? || sub.value.hoursIncluded == 0.0 ==> r == DefaultHoursIncluded
    ensures sub.Some? && sub.value.hoursIncluded != 0.0 ==> r == sub.value.hoursIncluded
  {
    match sub
    case None => DefaultHoursIncluded
    case Some(s) => NumOr(s.hoursIncluded, DefaultHoursIncluded)
  }

  /** `Math.max(0, hoursIncluded - hoursUsed)`. */
  function HoursRemaining(sub: Option<Subscription>): (r: real)
    ensures r >= 0.0
    ensures HoursUsed(sub) <= HoursIncluded(sub) ==> r == HoursIncluded(sub) - HoursUsed(sub)
    ensures HoursUsed(sub) > HoursIncluded(sub) ==> r == 0.0
    ensures HoursUsed(sub) >= 0.0 && HoursIncluded(sub) >= 0.0 ==> r <= HoursIncluded(sub)
  {
    var d := HoursIncluded(sub) - HoursUsed(sub);
    if d < 0.0 then 0.0 else d
  }

  /** `(hoursUsed / hoursIncluded) * 100`. */
  function UsagePercentage(sub: Option<Subscription>): (p: real)
    ensures p == 0.0 <==> HoursUsed(sub) == 0.0
    ensures p * HoursIncluded(sub) == HoursUsed(sub) * 100.0
  {
    var used := HoursUsed(sub);
    var included := HoursIncluded(sub);
    (used / included) * 100.0
  }

  /** While the hours used stay within the allowance the percentage lies
      between 0 and 100. */
  lemma {:induction false} UsageWithinAllowance(sub: Option<Subscription>)
    requires 0.0 <= HoursUsed(sub) <= HoursIncluded(sub)
    ensures 0.0 <= UsagePercentage(sub) <= 100.0
  {
    var used := HoursUsed(sub);
    var included := HoursIncluded(sub);
    var p := UsagePercentage(sub);
    assert p * included == used * 100.0;
    assert (p - 100.0) * included == (used - included) * 100.0;
    SignOfFactor(p, included);
    SignOfFactor(100.0 - p, included);
  }

  /** A product with a positive factor has the sign of the other factor. */
  lemma SignOfFactor(x: real, y: real)
    requires y > 0.0
    ensures x * y >= 0.0 ==> x >= 0.0
  {
    if x < 0.0 {
      assert x * y < 0.0;
    }
  }

  /** `Math.min(100, 100 - usagePercentage)`: the bar's width in percent. */
  function BarWidth(sub: Option<Subscription>): (w: real)
    ensures w <= 100.0
    ensures HoursUsed(sub) == 0.0 ==> w == 100.0
  {
    var x := 100.0 - UsagePercentage(sub);
    if x < 100.0 then x else 100.0
  }

  /** Whenever the hours used are within the allowance, the bar shows exactly
      the remaining hours as a share of the included hours:
      width / 100 == remaining / included. */
  lemma {:induction false} BarWidthIsRemainingShare(sub: Option<Subscription>)
    requires 0.0 <= HoursUsed(sub) <= HoursIncluded(sub)
    ensures BarWidth(sub) * HoursIncluded(sub) == HoursRemaining(sub) * 100.0
  {
    UsageWithinAllowance(sub);
    var p := UsagePercentage(sub);
    assert BarWidth(sub) == 100.0 - p;
    assert (100.0 - p) * HoursIncluded(sub) == 100.0 * HoursIncluded(sub) - p * HoursIncluded(sub);
  }

  /** `subscription?.plan || "Personal"`. */
  function PlanLabel(sub: Option<Subscription>): (r: string)
    ensures sub.None? || sub.value.plan == "" ==> r == "Personal"
    ensures sub.Some? && sub.value.plan != "" ==> r == sub.value.plan
  {
    match sub
    case None => "Personal"
    case Some(s) => StrOr(s.plan, "Personal")
  }

  /** `subscription?.price || 15`: a price of 0 also shows 15. */
  function PriceLabel(sub: Option<Subscription>): (r: real)
    ensures r != 0.0
    ensures sub.None? || sub.value.price == 0.0 ==> r == 15.0
    ensures sub.Some? && sub.value.price != 0.0 ==> r == sub.value.price
  {
    match sub
    case None => 15.0
    case Some(s) => NumOr(s.price, 15.0)
  }

  /** `subscription?.status || "Active"`. */
  function StatusLabel(sub: Option<Subscription>): (r: string)
    ensures r != ""
    ensures sub.None? || sub.value.status == "" ==> r == "Active"
    ensures sub.Some? && sub.value.status != "" ==> r == sub.value.status
  {
    match sub
    case None => "Active"
    case Some(s) => StrOr(s.status, "Active")
  }

  /** A client without a subscription sees the Personal plan at 15 a month,
      an Active status, all 20 hours remaining and a full bar. */
  lemma NoSubscriptionView()
    ensures PlanLabel(None) == "Personal" && PriceLabel(None) == 15.0 && StatusLabel(None) == "Active"
    ensures HoursRemaining(None) == DefaultHoursIncluded && BarWidth(None) == 100.0
  {
  }

  /** `profile?.full_name || <fallback>`: the header falls back to the
      account's e-mail, the sidebar to "User". */
  function ProfileName(fullName: Option<string>, fallback: string): (r: string)
    ensures fullName.Some? && fullName.value != "" ==> r == fullName.value
    ensures fullName.None? || fullName.value == "" ==> r == fallback
  {
    OptStrOr(fullName, fallback)
  }

  /** `profile?.full_name?.split(" ")[0] || "there"`: the text before the
      first space, or "there" when it is empty or there is no name. */
  function Greeting(fullName: Option<string>): (r: string)
    ensures r != ""
    ensures ' ' !in r
    ensures r == "there" || (fullName.Some? && IsPrefix(r, fullName.value))
  {
    match fullName
    case None => "there"
    case Some(n) => StrOr(Split(n, ' ')[0], "there")
  }

  /** A name whose first word is `w` is greeted as `w`. */
  lemma {:induction false} GreetingFirstWord(w: string, rest: string)
    requires w != "" && ' ' !in w
    ensures Greeting(Some(w + " " + rest)) == w
  {
    var s := w + " " + rest;
    var p := Split(s, ' ')[0];
    assert s[|w|] == ' ';
    assert s[..|w|] == w;
  }

  /** A single-word name is greeted in full, and a name starting with a
      space falls back to "there". */
  lemma {:induction false} GreetingCases(n: string)
    ensures n != "" && ' ' !in n ==> Greeting(Some(n)) == n
    ensures |n| > 0 && n[0] == ' ' ==> Greeting(Some(n)) == "there"
  {
    var p := Split(n, ' ')[0];
    if n != "" && ' ' !in n {
      assert |p| == |n|;
    }

  }

  /** What the history query keeps of the client's rows (already ordered
      newest first by the backend). */
  function FetchedHistory(rows: seq<ServiceEntry>): (r: seq<ServiceEntry>)
    ensures |r| == if |rows| < HistoryLimit then |rows| else HistoryLimit
    ensures r == rows[..|r|]
    ensures |rows| <= HistoryLimit ==> r == rows
  {
    Take(rows, HistoryLimit)
  }

  /** The overview's recent-activity card. */
  function OverviewHistory(history: seq<ServiceEntry>): (r: seq<ServiceEntry>)
    ensures |r| == if |history| < OverviewLimit then |history| else OverviewLimit
    ensures r == history[..|r|]
  {
    Take(history, OverviewLimit)
  }

  /** The overview shows the three newest rows of all the client's history. */
  lemma OverviewOfFetched(rows: seq<ServiceEntry>)
    ensures OverviewHistory(FetchedHistory(rows)) == Take(rows, OverviewLimit)
  {
    TakeTake(rows, HistoryLimit, OverviewLimit);
  }
}
