/** Binary attachments: `deconstructPacket` moves every ArrayBuffer of a packet's data into a list
    and leaves a numbered placeholder, `reconstructPacket` puts them back. */
module Attachments {
  import opened Text
  import opened Json3

  const PLACEHOLDER: Str := [95, 112, 108, 97, 99, 101, 104, 111, 108, 100, 101, 114]  // _placeholder
  const NUM: Str := [110, 117, 109]                                                     // num

  predicate Truthy(v: Value) {
    match v
    case Undef => false
    case Null => false
    case Bool(b) => b
    case Num(n) => n != Int(0) && !n.NotANumber?
    case String(s) => s != []
    case _ => true
  }

  function Placeholder(n: nat): Value {
    Obj(map[PLACEHOLDER := Bool(true), NUM := Num(Int(n))])
  }

  // ---------------------------------------------------------------- the buffers of a tree

  /** The ArrayBuffers of a tree in the order in which `_deconstructPacket` meets them. */
  function Leaves(v: Value, order: Order): seq<Bytes>
    decreases v, 1
  {
    match v
    case Bin(b) => [b]
    case Arr(items) => LeavesOfItems(items, order)
    case Obj(members) => LeavesOfMembers(v, order(members), order)
    case _ => []
  }

  function LeavesOfItems(items: seq<Value>, order: Order): seq<Bytes>
    decreases items, 0
  {
    if items == [] then [] else Leaves(items[0], order) + LeavesOfItems(items[1..], order)
  }

  function LeavesOfMembers(v: Value, keys: seq<Str>, order: Order): seq<Bytes>
    requires v.Obj?
    decreases v, 0, |keys|
  {
    if keys == [] then []
    else
      (if keys[0] in v.members then Leaves(v.members[keys[0]], order) else [])
      + LeavesOfMembers(v, keys[1..], order)
  }

  // ---------------------------------------------------------------- deconstructPacket

  /** `_deconstructPacket` when `n` buffers were found before. */
  function Deconstruct(v: Value, order: Order, n: nat): Value
    decreases v, 1
  {
    match v
    case Bin(_) => Placeholder(n)
    case Arr(items) => Arr(DeconstructItems(items, order, n))
    case Obj(members) => Obj(DeconstructMembers(v, order(members), order, n, map[]))
    case _ => v
  }

  function DeconstructItems(items: seq<Value>, order: Order, n: nat): (r: seq<Value>)
    ensures |r| == |items|
    decreases items, 0
  {
    if items == [] then []
    else
      [Deconstruct(items[0], order, n)]
      + DeconstructItems(items[1..], order, n + |Leaves(items[0], order)|)
  }

  function DeconstructMembers(v: Value, keys: seq<Str>, order: Order, n: nat, done: map<Str, Value>): map<Str, Value>
    requires v.Obj?
    decreases v, 0, |keys|
  {
    if keys == [] then done
    else if keys[0] in v.members then
      var item := v.members[keys[0]];
      DeconstructMembers(v, keys[1..], order, n + |Leaves(item, order)|,
                         Assign(done, keys[0], Deconstruct(item, order, n)))
    else DeconstructMembers(v, keys[1..], order, n, done)
  }

  lemma RestOfItems(items: seq<Value>, i: nat, order: Order, n: nat)
    requires i < |items|
    ensures DeconstructItems(items[i..], order, n)
         == [Deconstruct(items[i], order, n)] + DeconstructItems(items[i + 1..], order, n + |Leaves(items[i], order)|)
    ensures LeavesOfItems(items[i..], order) == Leaves(items[i], order) + LeavesOfItems(items[i + 1..], order)
  {
    assert items[i..][0] == items[i] && items[i..][1..] == items[i + 1..];
  }

  lemma RestOfMembers(v: Value, keys: seq<Str>, i: nat, order: Order, n: nat, done: map<Str, Value>)
    requires v.Obj? && i < |keys|
    ensures DeconstructMembers(v, keys[i..], order, n, done) ==
      if keys[i] in v.members then
        DeconstructMembers(v, keys[i + 1..], order, n + |Leaves(v.members[keys[i]], order)|,
                           Assign(done, keys[i], Deconstruct(v.members[keys[i]], order, n)))
      else DeconstructMembers(v, keys[i + 1..], order, n, done)
    ensures LeavesOfMembers(v, keys[i..], order) ==
      (if keys[i] in v.members then Leaves(v.members[keys[i]], order) else [])
      + LeavesOfMembers(v, keys[i + 1..], order)
  {
    assert keys[i..][0] == keys[i] && keys[i..][1..] == keys[i + 1..];
  }

  /** The recursion of `deconstructPacket`, which pushes onto one shared list. */
  class Deconstructor {
    var buffers: seq<Bytes>

    constructor ()
      ensures buffers == []
    {
      buffers := [];
    }

    method Run(data: Value, order: Order) returns (r: Value)
      modifies this
      ensures r == Deconstruct(data, order, |old(buffers)|)
      ensures buffers == old(buffers) + Leaves(data, order)
      decreases data, 1
    {
      if !Truthy(data) {
        return data;
      }
      match data {
        case Bin(b) =>
          r := Placeholder(|buffers|);
          buffers := buffers + [b];
        case Arr(items) =>
          var newData := RunItems(items, order);
          r := Arr(newData);
        case Obj(_) =>
          var newData := RunMembers(data, order);
          r := Obj(newData);
        case _ => r := data;
      }
    }

    method RunItems(items: seq<Value>, order: Order) returns (newData: seq<Value>)
      modifies this
      ensures newData == DeconstructItems(items, order, |old(buffers)|)
      ensures buffers == old(buffers) + LeavesOfItems(items, order)
      decreases items, 1
    {
      newData := [];
      assert items[0..] == items;
      for i := 0 to |items|
        invariant newData + DeconstructItems(items[i..], order, |buffers|)
          == DeconstructItems(items, order, |old(buffers)|)
        invariant buffers + LeavesOfItems(items[i..], order) == old(buffers) + LeavesOfItems(items, order)
      {
        newData := RunItem(items, i, order, newData);
      }
    }

    method RunItem(items: seq<Value>, i: nat, order: Order, done: seq<Value>) returns (newData: seq<Value>)
      requires i < |items|
      modifies this
      ensures newData + DeconstructItems(items[i + 1..], order, |buffers|)
           == done + DeconstructItems(items[i..], order, |old(buffers)|)
      ensures buffers + LeavesOfItems(items[i + 1..], order) == old(buffers) + LeavesOfItems(items[i..], order)
      decreases items, 0
    {
      ghost var n, leaves := |buffers|, Leaves(items[i], order);
      RestOfItems(items, i, order, n);
      Assoc(done, [Deconstruct(items[i], order, n)], DeconstructItems(items[i + 1..], order, n + |leaves|));
      Assoc(buffers, leaves, LeavesOfItems(items[i + 1..], order));
      var item := Run(items[i], order);
      newData := done + [item];
    }

    method RunMembers(data: Value, order: Order) returns (newData: map<Str, Value>)
      requires data.Obj?
      modifies this
      ensures newData == DeconstructMembers(data, order(data.members), order, |old(buffers)|, map[])
      ensures buffers == old(buffers) + LeavesOfMembers(data, order(data.members), order)
      decreases data, 0
    {
      var keys := order(data.members);
      newData := map[];
      for i := 0 to |keys|
        invariant DeconstructMembers(data, keys[i..], order, |buffers|, newData)
          == DeconstructMembers(data, keys, order, |old(buffers)|, map[])
        invariant buffers + LeavesOfMembers(data, keys[i..], order) == old(buffers) + LeavesOfMembers(data, keys, order)
      {
        RestOfMembers(data, keys, i, order, |buffers|, newData);
        if keys[i] in data.members {
          Assoc(buffers, Leaves(data.members[keys[i]], order), LeavesOfMembers(data, keys[i + 1..], order));
          var item := Run(data.members[keys[i]], order);
          newData := Assign(newData, keys[i], item);
        }
      }
    }
  }

  // ---------------------------------------------------------------- reconstructPacket

  predicate IsPlaceholder(v: Value) {
    v.Obj? && PLACEHOLDER in v.members && Truthy(v.members[PLACEHOLDER])
  }

  /** `buffers[data.num]`, which is `undefined` unless `num` is an index of the list. */
  function Fetch(v: Value, buffers: seq<Bytes>): Value
    requires v.Obj?
  {
    if NUM in v.members then
      match v.members[NUM]
      case Num(Int(i)) => if 0 <= i < |buffers| then Bin(buffers[i]) else Undef
      case _ => Undef
    else Undef
  }

  function Reconstruct(v: Value, buffers: seq<Bytes>): Value {
    if IsPlaceholder(v) then Fetch(v, buffers)
    else
      match v
      case Arr(items) => Arr(seq(|items|, i requires 0 <= i < |items| => Reconstruct(items[i], buffers)))
      case Obj(members) => Obj(map k | k in members :: Reconstruct(members[k], buffers))
      case _ => v
  }

  // ---------------------------------------------------------------- the round trip

  /** No object has a truthy `_placeholder` member or a member named `__proto__`. */
  predicate Clean(v: Value) {
    match v
    case Arr(items) => forall i | 0 <= i < |items| :: Clean(items[i])
    case Obj(members) =>
      PROTO !in members && !IsPlaceholder(v) && forall k | k in members :: Clean(members[k])
    case _ => true
  }

  lemma PlaceholderFetches(n: nat, buffers: seq<Bytes>)
    requires n < |buffers|
    ensures IsPlaceholder(Placeholder(n)) && Reconstruct(Placeholder(n), buffers) == Bin(buffers[n])
  {
    var m := Placeholder(n).members;
    assert PLACEHOLDER in m && m[PLACEHOLDER] == Bool(true) by { assert |PLACEHOLDER| != |NUM|; }
    assert NUM in m && m[NUM] == Num(Int(n));
  }

  lemma DeconstructKeepsTruth(v: Value, order: Order, n: nat)
    ensures Truthy(Deconstruct(v, order, n)) == Truthy(v)
  {
  }

  /** `leaves` stands in the shared list from index `n` on. */
  predicate At(buffers: seq<Bytes>, n: nat, leaves: seq<Bytes>) {
    n + |leaves| <= |buffers| && buffers[n..n + |leaves|] == leaves
  }

  lemma AtSplit(buffers: seq<Bytes>, n: nat, a: seq<Bytes>, b: seq<Bytes>)
    requires At(buffers, n, a + b)
    ensures At(buffers, n, a) && At(buffers, n + |a|, b)
  {
    var both := buffers[n..n + |a + b|];
    assert buffers[n..n + |a|] == both[..|a|];
    assert buffers[n + |a|..n + |a| + |b|] == both[|a|..];
  }

  /** Where the buffers of one key start in the shared list. */
  function Offset(v: Value, keys: seq<Str>, k: Str, order: Order): nat
    requires v.Obj? && k in keys
    decreases |keys|
  {
    if keys[0] == k then 0
    else
      (if keys[0] in v.members then |Leaves(v.members[keys[0]], order)| else 0)
      + Offset(v, keys[1..], k, order)
  }

  lemma {:induction false} LeavesAtOffset(v: Value, keys: seq<Str>, k: Str, order: Order, buffers: seq<Bytes>, n: nat)
    requires v.Obj? && k in keys && k in v.members && At(buffers, n, LeavesOfMembers(v, keys, order))
    ensures At(buffers, n + Offset(v, keys, k, order), Leaves(v.members[k], order))
    decreases |keys|
  {
    var first := if keys[0] in v.members then Leaves(v.members[keys[0]], order) else [];
    var rest := LeavesOfMembers(v, keys[1..], order);
    assert LeavesOfMembers(v, keys, order) == first + rest;
    AtSplit(buffers, n, first, rest);
    if keys[0] != k {
      LeavesAtOffset(v, keys[1..], k, order, buffers, n + |first|);
    }
  }

  /** The member that `k` becomes. */
  lemma {:induction false} DeconstructedMember(
      v: Value, keys: seq<Str>, order: Order, n: nat, done: map<Str, Value>, k: Str)
    requires v.Obj? && forall i, j | 0 <= i < j < |keys| :: keys[i] != keys[j]
    ensures var r := DeconstructMembers(v, keys, order, n, done);
      if k in keys && k in v.members && k != PROTO then
        k in r && r[k] == Deconstruct(v.members[k], order, n + Offset(v, keys, k, order))
      else (k in r <==> k in done) && (k in r ==> r[k] == done[k])
    decreases |keys|
  {
    if keys != [] {
      assert k in keys <==> k == keys[0] || k in keys[1..];
      assert keys[0] !in keys[1..];
      if keys[0] in v.members {
        var item := v.members[keys[0]];
        DeconstructedMember(v, keys[1..], order, n + |Leaves(item, order)|,
                            Assign(done, keys[0], Deconstruct(item, order, n)), k);
      } else {
        DeconstructedMember(v, keys[1..], order, n, done, k);
      }
    }
  }

  /** Whatever surrounds the buffers of `v` in the shared list. */
  lemma {:induction false} RoundTripAt(v: Value, order: Order, n: nat, buffers: seq<Bytes>)
    requires Enumerates(order) && At(buffers, n, Leaves(v, order))
    ensures Reconstruct(Deconstruct(v, order, n), buffers) == v <==> Clean(v)
    decreases v, 1
  {
    match v {
      case Bin(b) =>
        assert buffers[n] == buffers[n..n + 1][0];
        PlaceholderFetches(n, buffers);
      case Arr(items) =>
        var xs := DeconstructItems(items, order, n);
        forall i | 0 <= i < |items| ensures Reconstruct(xs[i], buffers) == items[i] <==> Clean(items[i]) {
          ItemRoundTripAt(items, order, n, buffers, i);
        }
        ItemsAgree(items, xs, buffers);
      case Obj(_) => ObjectRoundTripAt(v, order, n, buffers);
      case _ =>
    }
  }

  lemma {:induction false} ItemRoundTripAt(items: seq<Value>, order: Order, n: nat, buffers: seq<Bytes>, i: nat)
    requires i < |items| && Enumerates(order) && At(buffers, n, LeavesOfItems(items, order))
    ensures Reconstruct(DeconstructItems(items, order, n)[i], buffers) == items[i] <==> Clean(items[i])
    decreases items, 0
  {
    var first, rest := Leaves(items[0], order), LeavesOfItems(items[1..], order);
    AtSplit(buffers, n, first, rest);
    if i == 0 {
      RoundTripAt(items[0], order, n, buffers);
    } else {
      ItemRoundTripAt(items[1..], order, n + |first|, buffers, i - 1);
      assert DeconstructItems(items, order, n)[i] == DeconstructItems(items[1..], order, n + |first|)[i - 1];
    }
  }

  lemma ItemsAgree(items: seq<Value>, xs: seq<Value>, buffers: seq<Bytes>)
    requires |xs| == |items|
    requires forall i | 0 <= i < |items| :: Reconstruct(xs[i], buffers) == items[i] <==> Clean(items[i])
    ensures Reconstruct(Arr(xs), buffers) == Arr(items) <==> Clean(Arr(items))
  {
    var back := Reconstruct(Arr(xs), buffers).items;
    assert |back| == |items| && forall i | 0 <= i < |items| :: back[i] == Reconstruct(xs[i], buffers);
    if back == items {
      forall i | 0 <= i < |items| ensures Clean(items[i]) {
        assert back[i] == items[i];
      }
    }
  }

  lemma {:induction false} MemberRoundTripAt(v: Value, order: Order, n: nat, buffers: seq<Bytes>, k: Str)
    requires v.Obj? && Enumerates(order) && At(buffers, n, Leaves(v, order))
    ensures var w := Deconstruct(v, order, n);
      if k in v.members && k != PROTO then
        k in w.members && Truthy(w.members[k]) == Truthy(v.members[k])
        && (Reconstruct(w.members[k], buffers) == v.members[k] <==> Clean(v.members[k]))
      else k !in w.members
    decreases v, 0, 0
  {
    var keys := order(v.members);
    DeconstructedMember(v, keys, order, n, map[], k);
    if k in v.members && k != PROTO {
      LeavesAtOffset(v, keys, k, order, buffers, n);
      MemberValueRoundTripAt(v.members[k], order, n + Offset(v, keys, k, order), buffers);
    }
  }

  lemma {:induction false} MemberValueRoundTripAt(v: Value, order: Order, n: nat, buffers: seq<Bytes>)
    requires Enumerates(order) && At(buffers, n, Leaves(v, order))
    ensures Reconstruct(Deconstruct(v, order, n), buffers) == v <==> Clean(v)
    ensures Truthy(Deconstruct(v, order, n)) == Truthy(v)
    decreases v, 2
  {
    RoundTripAt(v, order, n, buffers);
    DeconstructKeepsTruth(v, order, n);
  }

  lemma {:induction false} ObjectRoundTripAt(v: Value, order: Order, n: nat, buffers: seq<Bytes>)
    requires v.Obj? && Enumerates(order) && At(buffers, n, Leaves(v, order))
    ensures Reconstruct(Deconstruct(v, order, n), buffers) == v <==> Clean(v)
    decreases v, 0, 1
  {
    var w := Deconstruct(v, order, n);
    forall k
      ensures if k in v.members && k != PROTO then
        k in w.members && Truthy(w.members[k]) == Truthy(v.members[k])
        && (Reconstruct(w.members[k], buffers) == v.members[k] <==> Clean(v.members[k]))
      else k !in w.members
    {
      MemberRoundTripAt(v, order, n, buffers, k);
    }
    MembersAgree(v, w, buffers);
  }

  lemma SameMembers(members: map<Str, Value>, back: map<Str, Value>)
    requires forall k ::
      if k in members && k != PROTO then k in back && (back[k] == members[k] <==> Clean(members[k])) else k !in back
    ensures back == members <==> PROTO !in members && forall k | k in members :: Clean(members[k])
  {
    if back == members {
      assert forall k | k in back :: back[k] == members[k];
    }
    if PROTO !in members {
      assert back.Keys == members.Keys;
    }
  }

  lemma MembersAgree(v: Value, w: Value, buffers: seq<Bytes>)
    requires v.Obj? && w.Obj?
    requires forall k ::
      if k in v.members && k != PROTO then
        k in w.members && Truthy(w.members[k]) == Truthy(v.members[k])
        && (Reconstruct(w.members[k], buffers) == v.members[k] <==> Clean(v.members[k]))
      else k !in w.members
    ensures Reconstruct(w, buffers) == v <==> Clean(v)
  {
    assert PLACEHOLDER != PROTO by { assert PLACEHOLDER[1] != PROTO[1]; }
    if !IsPlaceholder(v) {
      SameMembers(v.members, Reconstruct(w, buffers).members);
    }
  }

  /** Reconstruction undoes deconstruction exactly on the clean trees. */
  lemma ReconstructOfDeconstruct(v: Value, order: Order)
    requires Enumerates(order)
    ensures Reconstruct(Deconstruct(v, order, 0), Leaves(v, order)) == v <==> Clean(v)
  {
    var leaves := Leaves(v, order);
    assert leaves[0..0 + |leaves|] == leaves;
    RoundTripAt(v, order, 0, leaves);
  }
}
