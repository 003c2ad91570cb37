/** Sequences without repetitions, and taking an element out or putting one behind another. */
module Orders {
  import opened Text

  ghost predicate Distinct<T>(order: seq<T>) {
    forall i, j :: 0 <= i < j < |order| ==> order[i] != order[j]
  }

  /** The order without a name. */
  function Without<T(==, !new)>(order: seq<T>, name: T): (r: seq<T>)
    ensures name !in r && |r| <= |order|
    ensures forall k :: k in r <==> k in order && k != name
  {
    if order == [] then []
    else if order[0] == name then Without(order[1..], name)
    else [order[0]] + Without(order[1..], name)
  }

  /** A name put just behind the first occurrence of an anchor. */
  function InsertedAfter<T(==, !new)>(order: seq<T>, anchor: T, name: T): seq<T> {
    if order == [] then [name]
    else if order[0] == anchor then [anchor, name] + order[1..]
    else [order[0]] + InsertedAfter(order[1..], anchor, name)
  }

  lemma {:induction false} WithoutDistinct<T(!new)>(order: seq<T>, name: T)
    requires Distinct(order)
    ensures Distinct(Without(order, name))
    ensures name !in order ==> Without(order, name) == order
    decreases |order|
  {
    if order != [] {
      var rest := order[1..];
      assert forall i :: 0 <= i < |rest| ==> rest[i] == order[i + 1];
      WithoutDistinct(rest, name);
      if order[0] != name {
        assert order[0] !in rest;
      } else {
        assert name !in rest;
      }
    }
  }

  /** Without, at a place that is known. */
  lemma {:induction false} WithoutAt<T(!new)>(order: seq<T>, i: nat)
    requires Distinct(order) && i < |order|
    ensures Without(order, order[i]) == order[..i] + order[i + 1..]
    decreases |order|
  {
    var rest := order[1..];
    assert forall j :: 0 <= j < |rest| ==> rest[j] == order[j + 1];
    if i == 0 {
      assert order[0] !in rest;
      WithoutDistinct(rest, order[0]);
    } else {
      WithoutAt(rest, i - 1);
      assert rest[i - 1] == order[i] && order[0] != order[i];
      assert order[..i] == [order[0]] + rest[..i - 1];
      assert order[i + 1..] == rest[i..];
    }
  }

  lemma {:induction false} InsertedAt<T(!new)>(order: seq<T>, i: nat, name: T)
    requires Distinct(order) && i < |order|
    ensures InsertedAfter(order, order[i], name) == order[..i + 1] + [name] + order[i + 1..]
    decreases |order|
  {
    var rest := order[1..];
    if i == 0 {
      assert order[..1] == [order[0]];
    } else {
      assert forall j :: 0 <= j < |rest| ==> rest[j] == order[j + 1];
      InsertedAt(rest, i - 1, name);
      assert rest[i - 1] == order[i] && order[0] != order[i];
      assert order[..i + 1] == [order[0]] + rest[..i];
      assert order[i + 1..] == rest[i..];
    }
  }

  lemma PutAt<T(!new)>(order: seq<T>, i: nat, name: T)
    requires Distinct(order) && name !in order && i <= |order|
    ensures Distinct(order[..i] + [name] + order[i..])
    ensures forall k :: k in order[..i] + [name] + order[i..] <==> k in order || k == name
  {
    var r := order[..i] + [name] + order[i..];
    assert forall j :: 0 <= j < |r| ==> r[j] == if j < i then order[j] else if j == i then name else order[j - 1];
    forall k | k in order ensures k in r {
      var j :| 0 <= j < |order| && order[j] == k;
      assert r[if j < i then j else j + 1] == k;
    }
    assert r[i] == name;
  }

  lemma TakeAt<T(!new)>(order: seq<T>, i: nat, name: T)
    requires Distinct(order) && name !in order && i <= |order|
    ensures Without(order[..i] + [name] + order[i..], name) == order
  {
    hide Without;
    PutAt(order, i, name);
    var r := order[..i] + [name] + order[i..];
    assert r[i] == name;
    WithoutAt(r, i);
    assert r[..i] == order[..i];
    assert r[i + 1..] == order[i..];
    assert order[..i] + order[i..] == order;
  }

  lemma PutInFront<T(!new)>(order: seq<T>, name: T)
    requires Distinct(order) && name !in order
    ensures Distinct([name] + order) && forall k :: k in [name] + order <==> k in order || k == name
  {
    var r := [name] + order;
    assert forall j :: 0 <= j < |r| ==> r[j] == if j == 0 then name else order[j - 1];
  }

  lemma WithoutFront<T(!new)>(order: seq<T>, name: T)
    requires Distinct(order) && name !in order
    ensures Without([name] + order, name) == order
  {
    assert ([name] + order)[1..] == order;
    WithoutDistinct(order, name);
  }

  /** An insertion adds exactly the name, and taking it out again undoes the insertion. */
  lemma InsertedKeeps<T(!new)>(order: seq<T>, anchor: T, name: T)
    requires Distinct(order) && name !in order && anchor in order
    ensures var r := InsertedAfter(order, anchor, name);
            && Distinct(r) && (forall k :: k in r <==> k in order || k == name)
            && Without(r, name) == order
  {
    hide Without, InsertedAfter;
    var i :| 0 <= i < |order| && order[i] == anchor;
    InsertedAt(order, i, name);
    PutAt(order, i + 1, name);
    TakeAt(order, i + 1, name);
  }

  /** The ways in which PrependHeaderAfter rebuilds the order are one removal and one insertion. */
  lemma MovedUp<T(!new)>(order: seq<T>, after: nat, at: nat)
    requires Distinct(order) && after < at < |order|
    ensures InsertedAfter(Without(order, order[at]), order[after], order[at])
         == order[..after + 1] + [order[at]] + order[after + 1..at] + order[at + 1..]
  {
    hide Without, InsertedAfter;
    WithoutAt(order, at);
    var rest := order[..at] + order[at + 1..];
    WithoutDistinct(order, order[at]);
    assert rest[after] == order[after];
    InsertedAt(rest, after, order[at]);
    PartsBefore(order, after, at);
    Regroup(order[..after + 1] + [order[at]], order[after + 1..at], order[at + 1..]);
  }

  lemma PartsBefore<T>(order: seq<T>, after: nat, at: nat)
    requires after < at < |order|
    ensures (order[..at] + order[at + 1..])[..after + 1] == order[..after + 1]
    ensures (order[..at] + order[at + 1..])[after + 1..] == order[after + 1..at] + order[at + 1..]
  {
  }

  lemma MovedDown<T(!new)>(order: seq<T>, after: nat, at: nat)
    requires Distinct(order) && at < after < |order|
    ensures InsertedAfter(Without(order, order[at]), order[after], order[at])
         == order[..at] + order[at + 1..after + 1] + [order[at]] + order[after + 1..]
  {
    hide Without, InsertedAfter;
    WithoutAt(order, at);
    var rest := order[..at] + order[at + 1..];
    WithoutDistinct(order, order[at]);
    assert rest[after - 1] == order[after];
    InsertedBehind(rest, after, order[at]);
    RestParts(order, after, at);
  }

  lemma InsertedBehind<T(!new)>(order: seq<T>, n: nat, name: T)
    requires Distinct(order) && 0 < n <= |order|
    ensures InsertedAfter(order, order[n - 1], name) == order[..n] + [name] + order[n..]
  {
    hide InsertedAfter, Distinct;
    var i := n - 1;
    InsertedAt(order, i, name);
    assert i + 1 == n;
  }

  lemma RestParts<T>(order: seq<T>, after: nat, at: nat)
    requires at < after < |order|
    ensures (order[..at] + order[at + 1..])[..after] == order[..at] + order[at + 1..after + 1]
    ensures (order[..at] + order[at + 1..])[after..] == order[after + 1..]
  {
  }

  lemma MovedFirst<T(!new)>(order: seq<T>, at: nat)
    requires Distinct(order) && at < |order|
    ensures [order[at]] + Without(order, order[at]) == order[..0] + [order[at]] + order[0..at] + order[at + 1..]
  {
    hide Without;
    WithoutAt(order, at);
    Regroup([order[at]], order[..at], order[at + 1..]);
    assert order[..0] + [order[at]] == [order[at]];
  }

  lemma NewFirst<T(!new)>(order: seq<T>, name: T)
    requires Distinct(order) && name !in order
    ensures [name] + Without(order, name) == order[..0] + [name] + order[0..]
  {
    hide Without;
    WithoutDistinct(order, name);
    assert order[..0] + [name] == [name] && order[0..] == order;
  }

  lemma MovedNew<T(!new)>(order: seq<T>, after: nat, name: T)
    requires Distinct(order) && after < |order| && name !in order
    ensures InsertedAfter(Without(order, name), order[after], name)
         == order[..after + 1] + [name] + order[after + 1..]
  {
    WithoutDistinct(order, name);
    InsertedAt(order, after, name);
  }
}
