/** What every operation of the header store does to the headers as they are printed. */
module HeaderListing {
  import opened Wrappers
  import opened Text
  import opened Orders
  import opened HeaderStore

  function Printed(s: Store): seq<Header> {
    Listed(s, s.order)
  }

  function FiledUnder(s: Store, name: string): seq<Header> {
    if name in s.headers then s.headers[name] else []
  }

  lemma {:induction false} ListedSplits(s: Store, a: seq<string>, b: seq<string>)
    ensures Listed(s, a + b) == Listed(s, a) + Listed(s, b)
    decreases |a|
  {
    if a == [] {
      assert [] + b == b;
    } else {
      assert (a + b)[1..] == a[1..] + b;
      ListedSplits(s, a[1..], b);
    }
  }

  lemma {:induction false} ListedSame(s: Store, u: Store, order: seq<string>)
    requires forall k :: k in order ==> FiledUnder(s, k) == FiledUnder(u, k)
    ensures Listed(s, order) == Listed(u, order)
    decreases |order|
  {
    if order != [] {
      assert order[0] in order && forall k :: k in order[1..] ==> k in order;
      ListedSame(s, u, order[1..]);
    }
  }

  lemma ListedOne(s: Store, name: string)
    ensures Listed(s, [name]) == FiledUnder(s, name)
  {
    assert [name][1..] == [];
    assert FiledUnder(s, name) + [] == FiledUnder(s, name);
  }

  /** The printed headers around those of one name. */
  lemma PrintedAround(s: Store, u: Store, order: seq<string>, i: nat)
    requires Distinct(order) && i < |order|
    requires forall k :: k != order[i] ==> FiledUnder(s, k) == FiledUnder(u, k)
    ensures Listed(u, order) == Listed(s, order[..i]) + FiledUnder(u, order[i]) + Listed(s, order[i + 1..])
  {
    hide FiledUnder, Listed;
    var (a, b) := (order[..i], order[i + 1..]);
    assert order == a + ([order[i]] + b);
    ListedSplits(u, a, [order[i]] + b);
    ListedSplits(u, [order[i]], b);
    ListedOne(u, order[i]);
    ListedSame(s, u, a);
    ListedSame(s, u, b);
    Regroup(Listed(s, a), FiledUnder(u, order[i]), Listed(s, b));
  }

  /**
   * Headers of a name that is printed stay at its place: a header that is added is printed behind them, one that is
   * prepended in front of them, and one that replaces them alone.
   */
  lemma InPlace(s: Store, h: Header, i: nat)
    requires s.Sound() && i < |s.order| && s.order[i] == h.Name()
    ensures var (front, old', back) := (Listed(s, s.order[..i]), s.headers[h.Name()], Listed(s, s.order[i + 1..]));
            && Printed(s) == front + old' + back
            && Printed(Added(s, h)) == front + (old' + [h]) + back
            && Printed(Prepended(s, h)) == front + ([h] + old') + back
            && Printed(Replaced(s, h)) == front + [h] + back
  {
    hide Listed;
    assert h.Name() in s.order;
    PrintedAround(s, s, s.order, i);
    PrintedAround(s, Added(s, h), s.order, i);
    PrintedAround(s, Prepended(s, h), s.order, i);
    PrintedAround(s, Replaced(s, h), s.order, i);
  }

  /** A header of a new name is printed last when it is added and first when it is prepended. */
  lemma NewName(s: Store, h: Header)
    requires s.Sound() && h.Name() !in s.headers
    ensures Printed(Added(s, h)) == Printed(s) + [h]
    ensures Printed(Prepended(s, h)) == [h] + Printed(s)
  {
    hide Listed;
    var (u, v, name) := (Added(s, h), Prepended(s, h), h.Name());
    assert name !in s.order;
    ListedSplits(u, s.order, [name]);
    ListedSplits(v, [name], s.order);
    ListedOne(u, name);
    ListedOne(v, name);
    ListedSame(s, u, s.order);
    ListedSame(s, v, s.order);
  }

  /** Headers that a replacement has filed under a name outside the order stay unprinted whatever is added to them. */
  lemma HiddenName(s: Store, h: Header)
    requires s.Sound() && h.Name() !in s.order && h.Name() in s.headers
    ensures Printed(Added(s, h)) == Printed(s) && Printed(Prepended(s, h)) == Printed(s)
    ensures Printed(Replaced(s, h)) == Printed(s)
  {
    hide Listed;
    ListedSame(s, Added(s, h), s.order);
    ListedSame(s, Prepended(s, h), s.order);
    ListedSame(s, Replaced(s, h), s.order);
  }

  /** The headers without those of a name. */
  function Others(hs: seq<Header>, name: string): seq<Header> {
    if hs == [] then [] else (if hs[0].Name() == name then [] else [hs[0]]) + Others(hs[1..], name)
  }

  lemma {:induction false} OthersSplit(a: seq<Header>, b: seq<Header>, name: string)
    ensures Others(a + b, name) == Others(a, name) + Others(b, name)
    decreases |a|
  {
    hide Header.Name;
    if a == [] {
      assert [] + b == b;
    } else {
      assert (a + b)[1..] == a[1..] + b;
      OthersSplit(a[1..], b, name);
    }
  }

  lemma {:induction false} OthersAll(hs: seq<Header>, k: string, name: string)
    requires forall i :: 0 <= i < |hs| ==> hs[i].Name() == k
    ensures Others(hs, name) == if k == name then [] else hs
    decreases |hs|
  {
    if hs != [] {
      OthersAll(hs[1..], k, name);
    }
  }

  lemma {:induction false} ListedWithout(s: Store, order: seq<string>, name: string)
    requires s.Sound()
    ensures Listed(s.(headers := s.headers - {name}), Without(order, name)) == Others(Listed(s, order), name)
    decreases |order|
  {
    if order != [] {
      var u := s.(headers := s.headers - {name});
      ListedWithout(s, order[1..], name);
      OthersAll(FiledUnder(s, order[0]), order[0], name);
      OthersSplit(FiledUnder(s, order[0]), Listed(s, order[1..]), name);
      if order[0] != name {
        WithoutCons(order, name);
        ListedSplits(u, [order[0]], Without(order[1..], name));
        ListedOne(u, order[0]);
      }
    }
  }

  lemma WithoutCons(order: seq<string>, name: string)
    requires order != [] && order[0] != name
    ensures Without(order, name) == [order[0]] + Without(order[1..], name)
  {
  }

  lemma ListedIgnoresOrder(s: Store, u: Store, order: seq<string>)
    requires s.headers == u.headers
    ensures Listed(s, order) == Listed(u, order)
  {
    ListedSame(s, u, order);
  }

  /** What is printed after a name was deleted is what was printed before, without the headers of that name. */
  lemma DeletedPrints(s: Store, name: string)
    requires s.Sound()
    ensures Printed(Deleted(s, name)) == Others(Printed(s), ToLower(name))
  {
    hide ToLower, Listed, Others;
    ListedWithout(s, s.order, ToLower(name));
    ListedIgnoresOrder(Deleted(s, name), s.(headers := s.headers - {ToLower(name)}), Deleted(s, name).order);
  }

  /**
   * A header put behind an anchor that is printed comes, with the headers of its name behind it, directly after the
   * headers of the anchor, in what is printed without its name.
   */
  lemma PrependedAfterPrints(s: Store, h: Header, afterName: string, i: nat)
    requires s.Sound() && h.Name() != ToLower(afterName)
    requires var rest := Without(s.order, h.Name()); i < |rest| && rest[i] == ToLower(afterName)
    ensures var rest := Without(s.order, h.Name());
            var own := if h.Name() in s.order then s.headers[h.Name()] else [];
            && Others(Printed(s), h.Name()) == Listed(s, rest[..i + 1]) + Listed(s, rest[i + 1..])
            && Printed(PrependedAfter(s, h, afterName)) ==
               Listed(s, rest[..i + 1]) + ([h] + own) + Listed(s, rest[i + 1..])
  {
    hide ToLower, Listed, Others, Without, InsertedAfter;
    var (name, rest) := (h.Name(), Without(s.order, h.Name()));
    var (a, b) := (rest[..i + 1], rest[i + 1..]);
    var u := PrependedAfter(s, h, afterName);
    assert rest[i] in rest;
    WithoutDistinct(s.order, name);
    InsertedAt(rest, i, name);
    PutAt(rest, i + 1, name);
    var order := a + [name] + b;
    assert u.order == order && order[i + 1] == name;
    assert order[..i + 1] == a && order[i + 2..] == b;
    PrintedAround(s, u, order, i + 1);
    assert rest == a + b;
    ListedSplits(s, a, b);
    ListedWithout(s, s.order, name);
    ListedSame(s, s.(headers := s.headers - {name}), rest);
  }

  /** A header put behind its own name is put in front of the headers of that name. */
  lemma OwnAnchorPrints(s: Store, h: Header, afterName: string, i: nat)
    requires s.Sound() && i < |s.order| && s.order[i] == h.Name() == ToLower(afterName)
    ensures Printed(PrependedAfter(s, h, afterName)) == Printed(Prepended(s, h))
    ensures Printed(PrependedAfter(s, h, afterName)) ==
            Listed(s, s.order[..i]) + ([h] + s.headers[h.Name()]) + Listed(s, s.order[i + 1..])
  {
    hide Listed, ToLower, Without;
    assert h.Name() in s.order;
    assert PrependedAfter(s, h, afterName) == Prepended(s, h);
    InPlace(s, h, i);
  }
}
