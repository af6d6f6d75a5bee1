/**
 * The sentiment article lists of the static demo page (TS2 in
 * test_html/apps/service/static/main.js): sample articles kept when their keyword, sentiment
 * and date match the current selection, sorted by one of three orders.
 */
module SampleList {
  import opened Text
  import Sorting
  import AdminRuns
  import Calendar

  /** A sample article; `popular` is 0 when the article has none. */
  datatype Item = Item(keyword: string, sent: string, source: string, flag: string, date: string,
                       popular: int, title: string, desc: string)

  // ---------------------------------------------------------------------------------------
  // Dates

  /** `toDateNum`: the text without its dashes read as a number, 0 when it is not one. */
  function DateNum(iso: string): (n: nat)
    ensures iso == "" ==> n == 0
  {
    match AdminRuns.NumberOf(AdminRuns.Without(iso, '-'))
    case NaN => 0
    case Num(v) => v
  }

  /** An ISO date reads as its `YYYYMMDD` number, which is never 0. */
  lemma DateNumOfIso(d: Calendar.Date)
    requires Calendar.Valid(d) && d.year < 10000
    ensures DateNum(Calendar.IsoDate(d)) == Calendar.Ymd(d) > 0
  {
    AdminRuns.ToDateNumOfIso(d);
  }

  /**
   * `isInRange`: true when any of the three texts reads as 0; otherwise the bounds are
   * swapped if reversed and the date must lie between them, both included.
   */
  function IsInRange(iso: string, startIso: string, endIso: string): (r: bool)
    ensures DateNum(iso) == 0 || DateNum(startIso) == 0 || DateNum(endIso) == 0 ==> r
  {
    var n, s, e := DateNum(iso), DateNum(startIso), DateNum(endIso);
    if n == 0 || s == 0 || e == 0 then true
    else
      var lo, hi := if s > e then e else s, if s > e then s else e;
      lo <= n <= hi
  }

  /**
   * For well-formed ISO dates the test is the calendar one: the date lies between the two
   * bounds, whichever order they were given in, both ends included.
   */
  lemma IsInRangeOfDates(d: Calendar.Date, a: Calendar.Date, b: Calendar.Date)
    requires Calendar.Valid(d) && Calendar.Valid(a) && Calendar.Valid(b)
    requires d.year < 10000 && a.year < 10000 && b.year < 10000
    ensures IsInRange(Calendar.IsoDate(d), Calendar.IsoDate(a), Calendar.IsoDate(b)) <==>
      (Calendar.NotAfter(a, d) && Calendar.NotAfter(d, b)) || (Calendar.NotAfter(b, d) && Calendar.NotAfter(d, a))
  {
    DateNumOfIso(d);
    DateNumOfIso(a);
    DateNumOfIso(b);
    Calendar.YmdOrder(a, d);
    Calendar.YmdOrder(d, b);
    Calendar.YmdOrder(b, d);
    Calendar.YmdOrder(d, a);
  }

  // ---------------------------------------------------------------------------------------
  // Filtering

  /** `getDataBySent`: the articles of the keyword and sentiment dated inside the range, in order. */
  function DataBySent(data: seq<Item>, keyword: string, sent: string, startIso: string, endIso: string): (r: seq<Item>)
    ensures forall x :: x in r <==> x in data && x.keyword == keyword && x.sent == sent && IsInRange(x.date, startIso, endIso)
    ensures |r| <= |data|
  {
    Filter(data, (d: Item) => d.keyword == keyword && d.sent == sent && IsInRange(d.date, startIso, endIso))
  }

  // ---------------------------------------------------------------------------------------
  // Sorting

  /** `trustScore`: 정상 2, 의심 1, anything else 0. */
  function TrustScore(flag: string): (r: int)
    ensures 0 <= r <= 2
    ensures r == 2 <==> flag == "정상"
    ensures r == 1 <==> flag == "의심"
  {
    if flag == "정상" then 2 else if flag == "의심" then 1 else 0
  }

  /**
   * `a` goes strictly before `b` under the comparator of `sortItems`: more popular first
   * ("popular"), more trusted and then later first ("trust"), or later first (any other mode).
   * Dates compare as text.
   */
  predicate Precedes(mode: string, a: Item, b: Item) {
    if mode == "popular" then a.popular > b.popular
    else if mode == "trust" then
      TrustScore(a.flag) > TrustScore(b.flag)
      || (TrustScore(a.flag) == TrustScore(b.flag) && Sorting.StrLess(b.date, a.date))
    else Sorting.StrLess(b.date, a.date)
  }

  lemma PrecedesAsymmetric(mode: string, a: Item, b: Item)
    requires Precedes(mode, a, b)
    ensures !Precedes(mode, b, a)
  {
    if Sorting.StrLess(b.date, a.date) && Sorting.StrLess(a.date, b.date) {
      Sorting.StrLessTransitive(a.date, b.date, a.date);
      Sorting.StrLessIrreflexive(a.date);
    }
  }

  /** Dates: if `c` is later than `a`, then `b` is later than `a` or `c` later than `b`. */
  lemma DateSplit(a: string, b: string, c: string)
    requires Sorting.StrLess(a, c)
    ensures Sorting.StrLess(a, b) || Sorting.StrLess(b, c)
  {
    Sorting.StrLessTotal(a, b);
    if b == a {
    } else if Sorting.StrLess(b, a) {
      Sorting.StrLessTransitive(b, a, c);
    }
  }

  /** Not preceding is transitive, so the order sorts. */
  lemma NotPrecedesTransitive(mode: string, a: Item, b: Item, c: Item)
    requires !Precedes(mode, a, b) && !Precedes(mode, b, c)
    ensures !Precedes(mode, a, c)
  {
    if mode != "popular" && Precedes(mode, a, c) && Sorting.StrLess(c.date, a.date) {
      DateSplit(c.date, b.date, a.date);
    }
  }

  /** `prec` is a strict weak order: asymmetric, and not preceding is transitive. */
  ghost predicate StrictWeak<T(!new)>(prec: (T, T) -> bool) {
    (forall a, b :: prec(a, b) ==> !prec(b, a))
    && (forall a, b, c :: !prec(a, b) && !prec(b, c) ==> !prec(a, c))
  }

  /** The comparator of `sortItems` for a mode. */
  function OrderOf(mode: string): (prec: (Item, Item) -> bool)
    ensures StrictWeak(prec)
  {
    var prec := (a: Item, b: Item) => Precedes(mode, a, b);
    forall a: Item, b: Item | prec(a, b) ensures !prec(b, a) {
      PrecedesAsymmetric(mode, a, b);
    }
    forall a: Item, b: Item, c: Item | !prec(a, b) && !prec(b, c) ensures !prec(a, c) {
      NotPrecedesTransitive(mode, a, b, c);
    }
    prec
  }

  /** No element is preceded by a later one. */
  predicate SortedBy<T>(prec: (T, T) -> bool, s: seq<T>) {
    forall i, j :: 0 <= i < j < |s| ==> !prec(s[j], s[i])
  }

  /** Put `x` in front of the first element that does not strictly precede it. */
  function Insert<T>(prec: (T, T) -> bool, x: T, s: seq<T>): (r: seq<T>)
    ensures multiset(r) == multiset(s) + multiset{x} && |r| == |s| + 1
    ensures forall k :: 0 <= k < |r| ==> r[k] == x || r[k] in s
  {
    if s == [] || !prec(s[0], x) then [x] + s
    else
      assert s == [s[0]] + s[1..];
      [s[0]] + Insert(prec, x, s[1..])
  }

  /** Inserting into a sorted sequence keeps it sorted. */
  lemma {:induction false} InsertSorted<T(!new)>(prec: (T, T) -> bool, x: T, s: seq<T>)
    requires StrictWeak(prec) && SortedBy(prec, s)
    ensures SortedBy(prec, Insert(prec, x, s))
  {
    if s == [] {
    } else if !prec(s[0], x) {
      InsertFront(prec, x, s);
    } else {
      InsertSorted(prec, x, s[1..]);
      InsertBehind(prec, x, s, Insert(prec, x, s[1..]));
    }
  }

  /** `x` in front of a sorted sequence whose first element does not precede it. */
  lemma InsertFront<T(!new)>(prec: (T, T) -> bool, x: T, s: seq<T>)
    requires StrictWeak(prec) && SortedBy(prec, s) && s != [] && !prec(s[0], x)
    ensures SortedBy(prec, [x] + s)
  {
    var r := [x] + s;
    forall i, j | 0 <= i < j < |r| ensures !prec(r[j], r[i]) {
      if i > 0 {
        assert r[i] == s[i - 1] && r[j] == s[j - 1];
      } else {
        assert r[j] == s[j - 1];
      }
    }
  }

  /** The head of a sorted sequence before the sorted insertion of `x`, which it precedes, into the rest. */
  lemma InsertBehind<T(!new)>(prec: (T, T) -> bool, x: T, s: seq<T>, rest: seq<T>)
    requires StrictWeak(prec) && SortedBy(prec, s) && s != [] && prec(s[0], x)
    requires SortedBy(prec, rest) && forall k :: 0 <= k < |rest| ==> rest[k] == x || rest[k] in s[1..]
    ensures SortedBy(prec, [s[0]] + rest)
  {
    var r := [s[0]] + rest;
    forall i, j | 0 <= i < j < |r| ensures !prec(r[j], r[i]) {
      if i == 0 {
        var y := rest[j - 1];
        if y != x {
          var k :| 0 <= k < |s[1..]| && s[1..][k] == y;
          assert s[k + 1] == y;
        }
      } else {
        assert r[i] == rest[i - 1] && r[j] == rest[j - 1];
      }
    }
  }

  /** Insertion sort, stable like `Array.prototype.sort`. */
  function SortBy<T>(prec: (T, T) -> bool, items: seq<T>): (r: seq<T>)
    ensures multiset(r) == multiset(items) && |r| == |items|
  {
    if items == [] then []
    else
      assert items == [items[0]] + items[1..];
      Insert(prec, items[0], SortBy(prec, items[1..]))
  }

  lemma {:induction false} SortBySorted<T(!new)>(prec: (T, T) -> bool, items: seq<T>)
    requires StrictWeak(prec)
    ensures SortedBy(prec, SortBy(prec, items))
  {
    if items != [] {
      SortBySorted(prec, items[1..]);
      InsertSorted(prec, items[0], SortBy(prec, items[1..]));
    }
  }

  /** Neither precedes the other: the two tie under the comparator. */
  predicate Ties<T>(prec: (T, T) -> bool, a: T, b: T) {
    !prec(a, b) && !prec(b, a)
  }

  /** The elements of `s` that tie with `y`, in their order in `s`. */
  function TiesWith<T>(prec: (T, T) -> bool, s: seq<T>, y: T): (r: seq<T>)
    ensures |r| <= |s|
  {
    if s == [] then [] else (if Ties(prec, s[0], y) then [s[0]] else []) + TiesWith(prec, s[1..], y)
  }

  /** Taking the elements that tie with `y` from `[x] + s`. */
  lemma TiesWithCons<T>(prec: (T, T) -> bool, x: T, s: seq<T>, y: T)
    ensures TiesWith(prec, [x] + s, y) == (if Ties(prec, x, y) then [x] else []) + TiesWith(prec, s, y)
  {
    assert ([x] + s)[1..] == s;
  }

  /**
   * The elements passed over by the insertion strictly precede `x`, so none of them ties with
   * anything `x` ties with: `x` enters its tie class first.
   */
  lemma InsertStable<T(!new)>(prec: (T, T) -> bool, x: T, s: seq<T>, y: T)
    requires StrictWeak(prec)
    ensures TiesWith(prec, Insert(prec, x, s), y) == (if Ties(prec, x, y) then [x] else []) + TiesWith(prec, s, y)
  {
    forall i | 0 <= i < |s| && prec(s[i], x) ensures !(Ties(prec, x, y) && Ties(prec, s[i], y)) {
      PrecedingDoesNotTie(prec, s[i], x, y);
    }
    InsertStableFrom(prec, x, s, y);
  }

  /** The insertion keeps tie order when nothing it passes over ties with `y` along with `x`. */
  lemma {:induction false} InsertStableFrom<T>(prec: (T, T) -> bool, x: T, s: seq<T>, y: T)
    requires forall i :: 0 <= i < |s| && prec(s[i], x) ==> !(Ties(prec, x, y) && Ties(prec, s[i], y))
    ensures TiesWith(prec, Insert(prec, x, s), y) == (if Ties(prec, x, y) then [x] else []) + TiesWith(prec, s, y)
  {
    var r := Insert(prec, x, s);
    if s == [] || !prec(s[0], x) {
      assert r == [x] + s;
      TiesWithCons(prec, x, s, y);
    } else {
      var r1 := Insert(prec, x, s[1..]);
      assert r == [s[0]] + r1;
      InsertStableFrom(prec, x, s[1..], y);
      TiesWithCons(prec, s[0], r1, y);
      TiesWithCons(prec, s[0], s[1..], y);
      assert s == [s[0]] + s[1..];
    }
  }

  /** What strictly precedes `x` ties with nothing `x` ties with. */
  lemma PrecedingDoesNotTie<T(!new)>(prec: (T, T) -> bool, e: T, x: T, y: T)
    requires StrictWeak(prec) && prec(e, x)
    ensures !(Ties(prec, x, y) && Ties(prec, e, y))
  {
  }

  /**
   * The sort is stable like `Array.prototype.sort`: the elements that tie with any given one
   * keep their input order.
   */
  lemma {:induction false} SortByStable<T(!new)>(prec: (T, T) -> bool, items: seq<T>, y: T)
    requires StrictWeak(prec)
    ensures TiesWith(prec, SortBy(prec, items), y) == TiesWith(prec, items, y)
  {
    if items != [] {
      SortByStable(prec, items[1..], y);
      InsertStable(prec, items[0], SortBy(prec, items[1..]), y);
    }
  }

  /** `sortItems`: a sorted copy of the articles, the input left as it was. */
  function SortItems(items: seq<Item>, mode: string): seq<Item> {
    SortBy(OrderOf(mode), items)
  }

  /**
   * The copy holds the same articles, no article follows one that it should precede under the
   * mode's order, and articles that tie under it keep their input order.
   */
  lemma SortItemsSorted(items: seq<Item>, mode: string)
    ensures var r := SortItems(items, mode);
      multiset(r) == multiset(items)
      && (forall i, j :: 0 <= i < j < |r| ==> !Precedes(mode, r[j], r[i]))
      && forall y :: TiesWith(OrderOf(mode), r, y) == TiesWith(OrderOf(mode), items, y)
  {
    SortBySorted(OrderOf(mode), items);
    forall y ensures TiesWith(OrderOf(mode), SortItems(items, mode), y) == TiesWith(OrderOf(mode), items, y) {
      SortByStable(OrderOf(mode), items, y);
    }
  }
}
