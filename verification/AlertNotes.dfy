/**
 * The alerts the hub writes (server/src/notify.rs): one for any number of nodes, a sign-in,
 * and the test of a channel.
 */
module AlertNotes {
  import opened Template

  datatype Kind = Offline | Online | Traffic | Expiry | Renewal

  /** A node's name, and what is said of it. */
  datatype Item = Item(name: string, detail: string)

  const LISTED: nat := 20

  function EventName(k: Kind): string {
    match k
    case Offline => "offline"
    case Online => "online"
    case Traffic => "traffic"
    case Expiry => "expiry"
    case Renewal => "renew"
  }

  function Mark(k: Kind): string {
    match k
    case Offline => "🔴"
    case Online => "🟢"
    case Traffic => "⚠️"
    case Expiry => "⏳"
    case Renewal => "🔁"
  }

  function What(k: Kind): string {
    match k
    case Offline => "离线"
    case Online => "恢复在线"
    case Traffic => "流量提醒"
    case Expiry => "即将到期"
    case Renewal => "已自动续期"
  }

  function Decimal(n: nat): string {
    (if n < 10 then [] else Decimal(n / 10)) + ['0' + (n % 10) as char]
  }

  function Joined(parts: seq<string>, separator: string): string {
    if parts == [] then []
    else if |parts| == 1 then parts[0]
    else parts[0] + separator + Joined(parts[1..], separator)
  }

  function Names(items: seq<Item>): seq<string> {
    seq(|items|, k requires 0 <= k < |items| => items[k].name)
  }

  function Lines(items: seq<Item>): seq<string> {
    seq(|items|, k requires 0 <= k < |items| => items[k].name + " · " + items[k].detail)
  }

  function Title(k: Kind, items: seq<Item>): string
    requires items != []
  {
    if |items| == 1 then Mark(k) + " " + items[0].name + " " + What(k)
    else Mark(k) + " " + Decimal(|items|) + " 台节点" + What(k)
  }

  function Message(items: seq<Item>): string
    requires items != []
  {
    if |items| == 1 then items[0].detail
    else if |items| <= LISTED then Joined(Lines(items), "\n")
    else Joined(Lines(items[..LISTED]) + ["……另外 " + Decimal(|items| - LISTED) + " 台"], "\n")
  }

  /** One alert for any number of nodes. */
  function Batch(k: Kind, items: seq<Item>, site: string, time: string): Note
    requires items != []
  {
    Note(EventName(k), Joined(Names(items), ", "), Title(k, items), Message(items), site, time)
  }

  /** A date as it is written: four digits, a dash, two, a dash, two. */
  predicate DateShape(s: string) {
    && |s| >= 10 && s[4] == '-' && s[7] == '-'
    && forall i :: 0 <= i < 10 && i != 4 && i != 7 ==> '0' <= s[i] <= '9'
  }

  /** What the hub says of a node in each kind of alert, as far as it begins. */
  predicate Detailed(k: Kind, detail: string) {
    match k
    case Offline => StartsWith(detail, "最后上报 ")
    case Online => StartsWith(detail, "离线 ")
    case Traffic => StartsWith(detail, "已用 ")
    case Expiry => DateShape(detail)
    case Renewal => DateShape(detail)
  }

  predicate Itemised(k: Kind, items: seq<Item>) {
    items != [] && forall i :: 0 <= i < |items| ==> items[i].name != [] && Detailed(k, items[i].detail)
  }

  /** The alert that tests a channel, and the one of a sign-in. */
  predicate IsTest(n: Note) {
    n.event == "test" && n.node == "" && n.title == "✅ 测试通知" && n.message == "收到这条说明通知渠道可用"
  }

  predicate IsSignIn(n: Note) {
    n.event == "login" && n.node == "" && n.title == "🔑 面板登录" && StartsWith(n.message, "账号密码 · 来自 ")
  }

  ghost predicate IsBatch(n: Note) {
    exists k, items :: Itemised(k, items) && n == Batch(k, items, n.site, n.time)
  }

  /** The offline alert of a node named `x`. */
  function Outage(site: string, time: string): Note {
    Batch(Offline, [Item("x", "最后上报 " + time)], site, time)
  }

  lemma OutageIsWritten(site: string, time: string)
    ensures IsBatch(Outage(site, time))
    ensures var n := Outage(site, time);
            && n.event == "offline" && n.node == "x" && n.title == "🔴 x 离线" && n.message == "最后上报 " + time
            && n.site == site && n.time == time
  {
    var items := [Item("x", "最后上报 " + time)];
    assert items[0].detail[..|"最后上报 "|] == "最后上报 ";
    assert Itemised(Offline, items);
    assert Names(items) == ["x"];
    assert "🔴" + " " + "x" + " " + "离线" == "🔴 x 离线";
  }
  // ---- what an alert says of its nodes ----

  function DigitsValue(s: string): int {
    if s == [] then 0 else 10 * DigitsValue(s[..|s| - 1]) + s[|s| - 1] as int - '0' as int
  }

  /** A count is written in decimal. */
  lemma {:induction false} DecimalReads(n: nat)
    ensures DigitsValue(Decimal(n)) == n
  {
    var d := Decimal(n);
    assert d[|d| - 1] == '0' + (n % 10) as char;
    if n < 10 {
      assert d[..|d| - 1] == [];
    } else {
      DecimalReads(n / 10);
      assert d[..|d| - 1] == Decimal(n / 10);
    }
  }

  lemma {:induction false} JoinedNext(parts: seq<string>, part: string, separator: string)
    requires parts != []
    ensures Joined(parts + [part], separator) == Joined(parts, separator) + separator + part
  {
    if |parts| > 1 {
      JoinedNext(parts[1..], part, separator);
      assert (parts + [part])[1..] == parts[1..] + [part];
    } else {
      assert (parts + [part])[1..] == [part];
    }
  }

  /** The alert of one node, of each kind. */
  lemma OneNodeIsWritten(k: Kind, name: string, detail: string, site: string, time: string)
    ensures var n := Batch(k, [Item(name, detail)], site, time);
            && n.node == name && n.message == detail && n.site == site && n.time == time
            && (k.Offline? ==> n.event == "offline" && n.title == "🔴 " + name + " 离线")
            && (k.Online? ==> n.event == "online" && n.title == "🟢 " + name + " 恢复在线")
            && (k.Traffic? ==> n.event == "traffic" && n.title == "⚠️ " + name + " 流量提醒")
            && (k.Expiry? ==> n.event == "expiry" && n.title == "⏳ " + name + " 即将到期")
            && (k.Renewal? ==> n.event == "renew" && n.title == "🔁 " + name + " 已自动续期")
  {
    assert Names([Item(name, detail)]) == [name];
    TitleOfOne(Mark(k), name, What(k));
  }

  lemma TitleOfOne(mark: string, name: string, what: string)
    ensures mark + " " + name + " " + what == (mark + " ") + name + (" " + what)
  {
  }

  /** Each further node adds its line, up to the twentieth, and its name. */
  lemma EachNodeIsListed(k: Kind, items: seq<Item>, item: Item, site: string, time: string)
    requires items != []
    ensures var n, more := Batch(k, items, site, time), Batch(k, items + [item], site, time);
            && more.node == n.node + ", " + item.name
            && (2 <= |items| < 20 ==> more.message == n.message + "\n" + (item.name + " · " + item.detail))
            && (|items| == 1 ==>
                  more.message == items[0].name + " · " + items[0].detail + "\n" + (item.name + " · " + item.detail))
  {
    assert Names(items + [item]) == Names(items) + [item.name];
    JoinedNext(Names(items), item.name, ", ");
    assert Lines(items + [item]) == Lines(items) + [item.name + " · " + item.detail];
    JoinedNext(Lines(items), item.name + " · " + item.detail, "\n");
  }

  function Remainder(count: string): string {
    "……另外 " + count + " 台"
  }

  lemma RemainderIsTheLastLine(items: seq<Item>)
    requires |items| > 20
    ensures Message(items) == Joined(Lines(items[..20]), "\n") + "\n" + Remainder(Decimal(|items| - 20))
    ensures Message(items[..20]) == Joined(Lines(items[..20]), "\n")
  {
    JoinedNext(Lines(items[..20]), Remainder(Decimal(|items| - 20)), "\n");
  }

  /** An alert of several nodes counts them, and beyond the twentieth says how many more there are. */
  lemma TheRestAreCounted(k: Kind, items: seq<Item>, site: string, time: string)
    returns (all: string, rest: string)
    requires |items| > 1
    ensures DigitsValue(all) == |items|
    ensures Batch(k, items, site, time).title == Mark(k) + " " + all + " 台节点" + What(k)
    ensures |items| > 20 ==> DigitsValue(rest) == |items| - 20
    ensures |items| > 20 ==> Batch(k, items, site, time).message
                             == Batch(k, items[..20], site, time).message + "\n" + Remainder(rest)
  {
    all, rest := Decimal(|items|), [];
    DecimalReads(|items|);
    if |items| > 20 {
      rest := Decimal(|items| - 20);
      DecimalReads(|items| - 20);
      RemainderIsTheLastLine(items);
    }
  }
}
