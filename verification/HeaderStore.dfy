/** The ordered header store of a message: a map from lower-case names to headers, and the order of the names. */
module HeaderStore {
  import opened Wrappers
  import opened Text
  import opened Vias
  import opened Orders

  /** `tag` is the tag parameter of the To header, when it has one. */
  datatype Header =
    | ViaHeader(hops: seq<ViaHop>)
    | CSeqHeader(seqNo: nat, requestMethod: string)
    | ToHeader(address: string, tag: Option<string>)
    | OtherHeader(title: string, text: string)
  {
    function Name(): string {
      match this
      case ViaHeader(_) => "via"
      case CSeqHeader(_, _) => "cseq"
      case ToHeader(_, _) => "to"
      case OtherHeader(title, _) => ToLower(title)
    }
  }

  datatype Store = Store(headers: map<string, seq<Header>>, order: seq<string>) {
    /**
     * The order names only keys, each once, and every list is non-empty and filed under the name of its headers. A
     * key may be missing in the order.
     */
    ghost predicate Sound() {
      && Distinct(order)
      && (forall k :: k in order ==> k in headers)
      && (forall k :: k in headers ==>
            headers[k] != [] && forall i :: 0 <= i < |headers[k]| ==> headers[k][i].Name() == k)
    }

    /** Sound, and the order names every key. */
    ghost predicate Valid() {
      Sound() && forall k :: k in headers ==> k in order
    }

    /** GetHeaders */
    function Get(name: string): seq<Header> {
      if ToLower(name) in headers then headers[ToLower(name)] else []
    }
  }

  const NO_HEADERS := Store(map[], [])

  // ---- the operations, on values

  function Added(s: Store, h: Header): Store {
    var name := h.Name();
    if name in s.headers then s.(headers := s.headers[name := s.headers[name] + [h]])
    else Store(s.headers[name := [h]], s.order + [name])
  }

  function Prepended(s: Store, h: Header): Store {
    var name := h.Name();
    if name in s.headers then s.(headers := s.headers[name := [h] + s.headers[name]])
    else Store(s.headers[name := [h]], [name] + s.order)
  }

  function Replaced(s: Store, h: Header): Store {
    s.(headers := s.headers[h.Name() := [h]])
  }

  /**
   * PrependHeaderAfter, as what it is for: take the name out of the order, put it just behind the anchor. An anchor
   * that is a key but missing in the order counts as standing in front of it, and the headers of a name that is
   * missing in the order are forgotten.
   */
  function PrependedAfter(s: Store, h: Header, afterName: string): Store {
    var (name, anchor) := (h.Name(), ToLower(afterName));
    if anchor !in s.headers then Prepended(s, h)
    else
      Store(s.headers[name := [h] + if name in s.order && name in s.headers then s.headers[name] else []],
            if anchor !in s.order then [name] + Without(s.order, name)
            else if name == anchor then s.order
            else InsertedAfter(Without(s.order, name), anchor, name))
  }

  function Deleted(s: Store, name: string): Store {
    Store(s.headers - {ToLower(name)}, Without(s.order, ToLower(name)))
  }

  function DeletedAll(s: Store, names: seq<string>): Store
    decreases |names|
  {
    if names == [] then s else Deleted(DeletedAll(s, names[..|names| - 1]), names[|names| - 1])
  }

  /** The headers in the order in which they are printed. */
  function Listed(s: Store, order: seq<string>): seq<Header> {
    if order == [] then []
    else (if order[0] in s.headers then s.headers[order[0]] else []) + Listed(s, order[1..])
  }

  // ---- what every operation keeps

  datatype Op =
    | AddOp(h: Header) | PrependOp(h: Header) | AfterOp(h: Header, afterName: string)
    | ReplaceOp(h: Header) | DeleteOp(names: seq<string>) | ClearOp

  function Apply(s: Store, op: Op): Store {
    match op
    case AddOp(h) => Added(s, h)
    case PrependOp(h) => Prepended(s, h)
    case AfterOp(h, after) => PrependedAfter(s, h, after)
    case ReplaceOp(h) => Replaced(s, h)
    case DeleteOp(names) => DeletedAll(s, names)
    case ClearOp => NO_HEADERS
  }

  function ApplyAll(s: Store, ops: seq<Op>): Store
    decreases |ops|
  {
    if ops == [] then s else ApplyAll(Apply(s, ops[0]), ops[1..])
  }

  lemma {:induction false} DeletedKeeps(s: Store, names: seq<string>)
    requires s.Sound()
    ensures DeletedAll(s, names).Sound() && (s.Valid() ==> DeletedAll(s, names).Valid())
    decreases |names|
  {
    if names != [] {
      DeletedKeeps(s, names[..|names| - 1]);
      WithoutDistinct(DeletedAll(s, names[..|names| - 1]).order, ToLower(names[|names| - 1]));
    }
  }

  lemma PrependedKeeps(s: Store, h: Header)
    requires s.Sound()
    ensures Prepended(s, h).Sound() && (s.Valid() ==> Prepended(s, h).Valid())
    ensures Without(Prepended(s, h).order, h.Name()) == Without(s.order, h.Name())
  {
    if h.Name() !in s.headers {
      assert Prepended(s, h).order[1..] == s.order;
      PutInFront(s.order, h.Name());
    }
  }

  /** PrependHeaderAfter keeps the store sound, and valid if it was, and the order of all other names. */
  lemma PrependedAfterKeeps(s: Store, h: Header, afterName: string)
    requires s.Sound()
    ensures PrependedAfter(s, h, afterName).Sound() && (s.Valid() ==> PrependedAfter(s, h, afterName).Valid())
    ensures Without(PrependedAfter(s, h, afterName).order, h.Name()) == Without(s.order, h.Name())
  {
    hide Without, InsertedAfter;
    var (name, anchor) := (h.Name(), ToLower(afterName));
    WithoutDistinct(s.order, name);
    if anchor !in s.headers {
      PrependedKeeps(s, h);
    } else if anchor !in s.order {
      PutInFront(Without(s.order, name), name);
      WithoutFront(Without(s.order, name), name);
    } else if name != anchor {
      InsertedKeeps(Without(s.order, name), anchor, name);
    }
  }

  /**
   * From a valid store every operation leads to a valid store, except that replacing does so if and only if
   * the name is already there.
   */
  lemma OperationKeeps(s: Store, op: Op)
    requires s.Valid()
    ensures Apply(s, op).Valid() <==> !(op.ReplaceOp? && op.h.Name() !in s.headers)
  {
    match op
    case DeleteOp(names) => DeletedKeeps(s, names);
    case AfterOp(h, after) => PrependedAfterKeeps(s, h, after);
    case ReplaceOp(h) =>
      assert h.Name() in Replaced(s, h).headers;
    case _ =>
  }

  /** Every operation keeps a store sound. */
  lemma OperationSound(s: Store, op: Op)
    requires s.Sound()
    ensures Apply(s, op).Sound()
  {
    match op
    case DeleteOp(names) => DeletedKeeps(s, names);
    case AfterOp(h, after) => PrependedAfterKeeps(s, h, after);
    case PrependOp(h) => PrependedKeeps(s, h);
    case _ =>
  }

  /** Whatever operations are performed on a new store, it is sound. */
  lemma {:induction false} OperationsSound(s: Store, ops: seq<Op>)
    requires s.Sound()
    ensures ApplyAll(s, ops).Sound()
    decreases |ops|
  {
    hide Store.Sound;
    if ops != [] {
      OperationSound(s, ops[0]);
      OperationsSound(Apply(s, ops[0]), ops[1..]);
    }
  }

  /** No replacement in the run is of a name that is missing. */
  predicate ReplacesPresent(s: Store, ops: seq<Op>)
    decreases |ops|
  {
    ops == [] ||
    (!(ops[0].ReplaceOp? && ops[0].h.Name() !in s.headers) && ReplacesPresent(Apply(s, ops[0]), ops[1..]))
  }

  lemma {:induction false} OperationsKeep(s: Store, ops: seq<Op>)
    requires s.Valid() && ReplacesPresent(s, ops)
    ensures ApplyAll(s, ops).Valid()
    decreases |ops|
  {
    if ops != [] {
      OperationKeeps(s, ops[0]);
      OperationsKeep(Apply(s, ops[0]), ops[1..]);
    }
  }

  lemma {:induction false} ListedKeys(s: Store, order: seq<string>, h: Header)
    ensures h in Listed(s, order) <==> exists k :: k in order && k in s.headers && h in s.headers[k]
    decreases |order|
  {
    if order != [] {
      ListedKeys(s, order[1..], h);
      assert forall k :: k in order <==> k == order[0] || k in order[1..];
    }
  }

  /** A header replaced under a missing name is found by its name, and is not printed. */
  lemma ReplacedMissing(s: Store, h: Header)
    requires s.Valid() && h.Name() !in s.headers
    ensures Replaced(s, h).headers[h.Name()] == [h]
    ensures h !in Listed(Replaced(s, h), Replaced(s, h).order)
  {
    var r := Replaced(s, h);
    ListedKeys(r, r.order, h);
    assert forall k :: k in r.order ==> k in s.headers && r.headers[k] == s.headers[k];
  }

  // ---- the object

  class Headers {
    var headers: map<string, seq<Header>>
    var headerOrder: seq<string>

    ghost function View(): Store
      reads this
    {
      Store(headers, headerOrder)
    }

    constructor ()
      ensures View() == NO_HEADERS
    {
      headers, headerOrder := map[], [];
    }

    /** The first header of a list is read before anything is appended: no list may be empty, as in a sound store. */
    method AddHeader(header: Header)
      requires View().Sound()
      modifies this
      ensures View() == Added(old(View()), header) && View().Sound()
    {
      OperationSound(View(), AddOp(header));
      var name := header.Name();
      if name in headers {
        var headerList := headers[name];
        var first := headerList[0];
        headers := headers[name := headerList + [header]];
      } else {
        headers := headers[name := [header]];
        headerOrder := headerOrder + [name];
      }
    }

    method ReplaceHeader(header: Header)
      modifies this
      ensures View() == Replaced(old(View()), header)
    {
      var name := header.Name();
      headers := headers[name := [header]];
      // the test for a missing name comes after the name was stored, so the order never grows
      if name !in headers {
        assert false;
      }
    }

    method PrependHeader(header: Header)
      modifies this
      ensures View() == Prepended(old(View()), header)
    {
      var name := header.Name();
      if name in headers {
        headers := headers[name := [header] + headers[name]];
      } else {
        headers := headers[name := [header]];
        headerOrder := [name] + headerOrder;
      }
    }

    method PrependHeaderAfter(header: Header, afterName: string)
      requires View().Sound()
      modifies this
      ensures View() == PrependedAfter(old(View()), header, afterName) && View().Sound()
    {
      hide Without, InsertedAfter;
      PrependedAfterKeeps(View(), header, afterName);
      var headerName, anchor := header.Name(), ToLower(afterName);
      if anchor !in headers {
        PrependHeader(header);
        return;
      }
      var afterIdx, headerIdx := FindNames(headerOrder, anchor, headerName);
      var newOrder := NewOrder(headerOrder, afterIdx, headerIdx, headerName);
      headers := headers[headerName := [header] + if headerIdx == -1 then [] else headers[headerName]];
      headerOrder := newOrder;
    }

    method DelHeader(names: seq<string>)
      modifies this
      requires Distinct(headerOrder)
      ensures View() == if names == [] then NO_HEADERS else DeletedAll(old(View()), names)
    {
      if |names| == 0 {
        headers, headerOrder := map[], [];
        return;
      }
      ghost var before := View();
      for n := 0 to |names|
        invariant View() == DeletedAll(before, names[..n]) && Distinct(headerOrder)
      {
        assert names[..n + 1][..n] == names[..n];
        var name := ToLower(names[n]);
        headers := headers - {name};
        WithoutDistinct(headerOrder, name);
        var idx := 0;
        while idx < |headerOrder|
          invariant idx <= |headerOrder| && name !in headerOrder[..idx]
        {
          if headerOrder[idx] == name {
            break;
          }
          idx := idx + 1;
        }
        if idx < |headerOrder| {
          WithoutAt(headerOrder, idx);
          headerOrder := headerOrder[..idx] + headerOrder[idx + 1..];
        } else {
          assert headerOrder[..idx] == headerOrder;
        }
      }
      assert names[..|names|] == names;
    }

    /** The headers of a name; a missing name gives none. */
    method GetHeaders(name: string) returns (r: seq<Header>)
      ensures r == View().Get(name)
    {
      r := if ToLower(name) in headers then headers[ToLower(name)] else [];
    }
  }

  /** The places of two names in the order; -1 when a name is not there. */
  method FindNames(order: seq<string>, anchor: string, headerName: string) returns (afterIdx: int, headerIdx: int)
    ensures -1 <= afterIdx < |order| && -1 <= headerIdx < |order|
    ensures if afterIdx == -1 then anchor !in order else order[afterIdx] == anchor
    ensures if headerIdx == -1 then headerName !in order else order[headerIdx] == headerName
  {
    afterIdx, headerIdx := -1, -1;
    for i := 0 to |order|
      invariant -1 <= afterIdx < i && -1 <= headerIdx < i
      invariant if afterIdx == -1 then anchor !in order[..i] else order[afterIdx] == anchor
      invariant if headerIdx == -1 then headerName !in order[..i] else order[headerIdx] == headerName
    {
      if order[i] == anchor {
        afterIdx := i;
      }
      if order[i] == headerName {
        headerIdx := i;
      }
    }
    assert order[..|order|] == order;
  }

  /** The order with the name just behind the anchor, or in front without one, rebuilt from slices. */
  method NewOrder(order: seq<string>, afterIdx: int, headerIdx: int, headerName: string) returns (newOrder: seq<string>)
    requires Distinct(order) && -1 <= afterIdx < |order| && -1 <= headerIdx < |order|
    requires if headerIdx == -1 then headerName !in order else order[headerIdx] == headerName
    ensures newOrder == if afterIdx == -1 then [headerName] + Without(order, headerName)
                        else if headerIdx == afterIdx then order
                        else InsertedAfter(Without(order, headerName), order[afterIdx], headerName)
  {
    hide Without, InsertedAfter;
    if afterIdx == -1 {
      if headerIdx == -1 {
        NewFirst(order, headerName);
        newOrder := order[..0] + [headerName] + order[0..];
      } else {
        MovedFirst(order, headerIdx);
        newOrder := order[..0] + [headerName] + order[0..headerIdx] + order[headerIdx + 1..];
      }
    } else if headerIdx == -1 {
      MovedNew(order, afterIdx, headerName);
      newOrder := order[..afterIdx + 1] + [headerName] + order[afterIdx + 1..];
    } else if afterIdx < headerIdx {
      MovedUp(order, afterIdx, headerIdx);
      newOrder := order[..afterIdx + 1] + [headerName] + order[afterIdx + 1..headerIdx] + order[headerIdx + 1..];
    } else {
      newOrder := order[..headerIdx] + order[headerIdx + 1..afterIdx + 1] + [headerName] + order[afterIdx + 1..];
      if headerIdx < afterIdx {
        MovedDown(order, afterIdx, headerIdx);
      }
    }
  }
}
