/**
 Marshalling SQL bindings: a Scheme list or vector is copied into an array of C records
 outside the Scheme heap, read back, and released. malloc is a heap of live blocks that may
 refuse any request once memory is short; free accepts live blocks only.
 */
module BindingCode {
  import opened Options
  import Utf8

  type Byte = bv8
  type Address = nat

  const EINVAL: int := -22
  const ENOMEM: int := -12

  // A Scheme value; the bits of a flonum are opaque, Other is anything not bindable.
  datatype Datum = False | Integer(i: int) | Flonum(d: nat) | Text(s: seq<bv32>) | Bytevector(b: seq<Byte>) | Other

  // A Scheme string holds scalar values only.
  ghost predicate Proper(data: seq<Datum>) {
    forall i :: 0 <= i < |data| && data[i].Text? ==> Utf8.Scalars(data[i].s)
  }

  predicate Int64(i: int) { -0x8000_0000_0000_0000 <= i < 0x8000_0000_0000_0000 }

  predicate Bindable(datum: Datum) {
    !datum.Other? && (datum.Integer? ==> Int64(datum.i))
  }

  // binding_t; a block pointer is None once released.
  datatype Binding =
    | NullBinding
    | IntegerBinding(i: int)
    | FloatBinding(d: nat)
    | TextBinding(utf8: Option<Address>, size: nat)
    | BlobBinding(blob: Option<Address>, size: nat)
    | BadBinding

  /** The block that a binding owns. */
  function Owned(b: Binding): Option<Address> {
    match b
    case TextBinding(a, _) => a
    case BlobBinding(a, _) => a
    case _ => None
  }

  function OwnedBy(q: seq<Binding>): set<Address> {
    set k | 0 <= k < |q| && Owned(q[k]).Some? :: Owned(q[k]).value
  }

  ghost predicate Separate(q: seq<Binding>) {
    forall i, j :: 0 <= i < j < |q| && Owned(q[i]).Some? && Owned(q[j]).Some? ==> Owned(q[i]) != Owned(q[j])
  }

  /** b is what datum marshals to. */
  ghost predicate Stands(b: Binding, datum: Datum, blocks: map<Address, seq<Byte>>) {
    match datum
    case False => b == NullBinding
    case Integer(i) => Int64(i) && b == IntegerBinding(i)
    case Flonum(d) => b == FloatBinding(d)
    case Text(s) =>
      Utf8.Scalars(s) && b.TextBinding? && b.utf8.Some? && b.utf8.value in blocks && b.size == |Utf8.Encode(s)|
      && blocks[b.utf8.value] == Utf8.Encode(s) + [0]
    case Bytevector(bv) =>
      b.BlobBinding? && b.blob.Some? && b.blob.value in blocks && b.size == |bv| && blocks[b.blob.value] == bv
    case Other => false
  }

  ghost predicate StandFor(q: seq<Binding>, data: seq<Datum>, blocks: map<Address, seq<Byte>>) {
    |q| == |data| && Separate(q) && forall i :: 0 <= i < |q| ==> Stands(q[i], data[i], blocks)
  }

  lemma OwnedNext(q: seq<Binding>, j: nat)
    requires j < |q|
    ensures OwnedBy(q[..j + 1]) == OwnedBy(q[..j]) + (if Owned(q[j]).Some? then {Owned(q[j]).value} else {})
    ensures Separate(q) && Owned(q[j]).Some? ==> Owned(q[j]).value !in OwnedBy(q[..j])
    ensures Owned(q[j]).Some? ==> Owned(q[j]).value in OwnedBy(q)
  {
    var p, r := q[..j], q[..j + 1];
    assert forall k :: 0 <= k < j ==> p[k] == r[k];
    assert r[j] == q[j];
  }

  class Heap {
    var blocks: map<Address, seq<Byte>>   // live
    var unused: Address                   // addresses from here on were never handed out
    const short: bool                     // malloc may fail

    ghost predicate Valid()
      reads this
    {
      forall a :: a in blocks ==> a < unused
    }

    method Malloc(contents: seq<Byte>) returns (a: Option<Address>)
      requires Valid()
      modifies this
      ensures Valid() && (!short ==> a.Some?)
      ensures a.None? ==> blocks == old(blocks)
      ensures a.Some? ==> a.value !in old(blocks) && blocks == old(blocks)[a.value := contents]
    {
      var ok: bool := *;
      if short && !ok { return None; }
      a := Some(unused);
      blocks := blocks[unused := contents];
      unused := unused + 1;
    }

    method Free(a: Address)
      requires Valid() && a in blocks
      modifies this`blocks
      ensures Valid() && blocks == old(blocks) - {a}
    {
      blocks := blocks - {a};
    }

    /** set_binding into items[i] */
    method SetBinding(items: array<Binding>, i: nat, datum: Datum) returns (rc: int)
      requires Valid() && i < items.Length && (datum.Text? ==> Utf8.Scalars(datum.s))
      modifies this, items
      ensures Valid() && items[..] == old(items[..])[i := items[i]]
      ensures rc in {0, EINVAL, ENOMEM} && (rc == EINVAL <==> !Bindable(datum)) && (rc == ENOMEM ==> short)
      ensures rc != 0 ==> blocks == old(blocks)
      ensures rc == 0 ==> Stands(items[i], datum, blocks)
      ensures rc == 0 ==> match Owned(items[i]) {
                            case None => blocks == old(blocks)
                            case Some(a) => a !in old(blocks) && a in blocks && blocks - {a} == old(blocks) }
    {
      match datum
      case False => items[i] := NullBinding; rc := 0;
      case Integer(n) =>
        items[i] := IntegerBinding(n);
        rc := if Int64(n) then 0 else EINVAL;
      case Flonum(d) => items[i] := FloatBinding(d); rc := 0;
      case Text(s) =>
        var utf8 := Malloc(Utf8.Encode(s) + [0]);
        items[i] := TextBinding(utf8, if utf8.Some? then |Utf8.Encode(s)| else 0);
        rc := if utf8.Some? then 0 else ENOMEM;
      case Bytevector(bv) =>
        var blob := Malloc(bv);
        items[i] := BlobBinding(blob, |bv|);
        rc := if blob.Some? then 0 else ENOMEM;
      case Other => items[i] := BadBinding; rc := EINVAL;
    }

    /** free_binding */
    method FreeBinding(items: array<Binding>, i: nat)
      requires Valid() && i < items.Length && (Owned(items[i]).Some? ==> Owned(items[i]).value in blocks)
      modifies this`blocks, items
      ensures Valid() && items[..] == old(items[..])[i := items[i]] && Owned(items[i]).None?
      ensures blocks == if old(Owned(items[i])).Some? then old(blocks) - {old(Owned(items[i])).value} else old(blocks)
    {
      match items[i]
      case TextBinding(utf8, size) =>
        if utf8.Some? {
          Free(utf8.value);
          items[i] := TextBinding(None, size);
        }
      case BlobBinding(blob, size) =>
        if blob.Some? {
          Free(blob.value);
          items[i] := BlobBinding(None, size);
        }
      case _ =>
    }

    /** Every binding below n is released, and nothing else is. */
    method FreeBindings(items: array<Binding>, n: nat)
      requires Valid() && n <= items.Length && Separate(items[..n]) && OwnedBy(items[..n]) <= blocks.Keys
      modifies this`blocks, items
      ensures Valid() && blocks == old(blocks) - OwnedBy(old(items[..n]))
    {
      ghost var q, b0 := items[..n], blocks;
      for j := 0 to n
        invariant Valid() && items[j..n] == q[j..]
        invariant blocks == b0 - OwnedBy(q[..j])
      {
        assert items[j] == q[j];
        OwnedNext(q, j);
        FreeBinding(items, j);
      }
      assert q[..n] == q;
    }
  }

  /** bindings_t: a malloc'ed block that holds the records. */
  class Bindings {
    const address: Address
    const items: array<Binding>

    constructor (address: Address, len: nat)
      ensures this.address == address && items.Length == len && fresh(items)
    {
      this.address := address;
      items := new Binding[len](i => BadBinding);
    }
  }

  // A proper list.
  datatype List = Nil | Cons(car: Datum, cdr: List)

  function Elements(p: List): seq<Datum> {
    match p
    case Nil => []
    case Cons(x, rest) => [x] + Elements(rest)
  }

  datatype Argument = ListOf(p: List) | VectorOf(v: seq<Datum>) | Neither

  function DataOf(x: Argument): seq<Datum> {
    match x
    case ListOf(p) => Elements(p)
    case VectorOf(v) => v
    case Neither => []
  }

  datatype Marshalled = Null | Pointer(b: Bindings) | Error(rc: int)

  /** The live blocks are those of base and the ones that the first n bindings own. */
  ghost predicate Filled(h: Heap, base: map<Address, seq<Byte>>, items: array<Binding>, n: nat, data: seq<Datum>)
    reads h, items
  {
    && h.Valid() && n <= items.Length && n <= |data|
    && StandFor(items[..n], data[..n], h.blocks)
    && OwnedBy(items[..n]) !! base.Keys
    && h.blocks - OwnedBy(items[..n]) == base
    && OwnedBy(items[..n]) <= h.blocks.Keys
  }

  lemma FillNext(items: seq<Binding>, n: nat, data: seq<Datum>, before: map<Address, seq<Byte>>,
                 after: map<Address, seq<Byte>>)
    requires n < |items| && n < |data|
    requires StandFor(items[..n], data[..n], before) && OwnedBy(items[..n]) <= before.Keys
    requires Stands(items[n], data[n], after)
    requires match Owned(items[n]) {
               case None => after == before
               case Some(a) => a !in before && a in after && after - {a} == before }
    ensures StandFor(items[..n + 1], data[..n + 1], after)
    ensures OwnedBy(items[..n + 1]) <= after.Keys
  {
    OwnedNext(items, n);
    assert forall a :: a in before ==> a in after && after[a] == before[a];
    forall i | 0 <= i < n + 1 ensures Stands(items[i], data[i], after) {
      if i < n {
        assert items[..n][i] == items[i] && data[..n][i] == data[i];
        assert Stands(items[..n][i], data[..n][i], before);
      }
    }
    forall i, j | 0 <= i < j < n + 1 && Owned(items[i]).Some? && Owned(items[j]).Some?
      ensures Owned(items[i]) != Owned(items[j])
    {
      assert items[..n][i] == items[i];
      if j < n {
        assert items[..n][j] == items[j];
      } else {
        assert Owned(items[i]).value in OwnedBy(items[..n]);
      }
    }
  }

  /** One turn of the filling loops; on failure everything marshalled so far is released. */
  method FillOne(h: Heap, b: Bindings, i: nat, datum: Datum, ghost base: map<Address, seq<Byte>>,
                 ghost data: seq<Datum>)
    returns (rc: int)
    requires i < b.items.Length == |data| && datum == data[i] && (datum.Text? ==> Utf8.Scalars(datum.s))
    requires b.address in base && Filled(h, base, b.items, i, data)
    modifies h, b.items
    ensures rc == 0 ==> Filled(h, base, b.items, i + 1, data)
    ensures rc != 0 ==> h.Valid() && h.blocks == base - {b.address}
    ensures rc in {0, EINVAL, ENOMEM} && (rc == EINVAL <==> !Bindable(datum)) && (rc == ENOMEM ==> h.short)
  {
    ghost var q, blocks := b.items[..], h.blocks;
    rc := h.SetBinding(b.items, i, datum);
    assert b.items[..i] == q[..i];
    if rc != 0 {
      h.FreeBindings(b.items, i);
      h.Free(b.address);
    } else {
      FillNext(b.items[..], i, data, blocks, h.blocks);
      OwnedNext(b.items[..], i);
      assert b.items[..][..i + 1] == b.items[..i + 1] && b.items[..][..i] == q[..i];
    }
  }

  /** The result of marshalling data: nothing for no data, otherwise one array block and the
      blocks its bindings own; a failure leaves the live blocks as they were. */
  ghost predicate Outcome(h: Heap, before: map<Address, seq<Byte>>, data: seq<Datum>, r: Marshalled)
    reads h, if r.Pointer? then {r.b.items} else {}
  {
    && h.Valid()
    && (r.Error? ==> h.blocks == before && data != [])
    && (r.Null? ==> h.blocks == before && data == [])
    && (r.Pointer? ==>
          && r.b.items.Length == |data| > 0 && r.b.address !in before
          && Filled(h, before[r.b.address := []], r.b.items, |data|, data))
  }

  /** Which arguments are refused: with memory to spare, exactly those holding something that
      cannot be bound. */
  ghost predicate Refusal(short: bool, data: seq<Datum>, r: Marshalled) {
    && (!short ==> (r.Error? <==> exists i :: 0 <= i < |data| && !Bindable(data[i])))
    && (r.Error? ==> r.rc == EINVAL || (r.rc == ENOMEM && short))
    && (r.Error? && r.rc == EINVAL ==> exists i :: 0 <= i < |data| && !Bindable(data[i]))
    && (!r.Error? ==> forall i :: 0 <= i < |data| ==> Bindable(data[i]))
  }

  method MarshalVector(h: Heap, v: seq<Datum>) returns (r: Marshalled)
    requires h.Valid() && Proper(v)
    modifies h
    ensures Outcome(h, old(h.blocks), v, r) && Refusal(h.short, v, r)
    ensures r.Pointer? ==> fresh(r.b.items)
  {
    if |v| == 0 { return Null; }
    var block := h.Malloc([]);
    if block.None? { return Error(ENOMEM); }
    var b := new Bindings(block.value, |v|);
    ghost var base := h.blocks;
    assert base == old(h.blocks)[b.address := []] && base - {b.address} == old(h.blocks);
    for i := 0 to |v|
      invariant Filled(h, base, b.items, i, v)
      invariant forall j :: 0 <= j < i ==> Bindable(v[j])
    {
      var rc := FillOne(h, b, i, v[i], base, v);
      if rc != 0 { return Error(rc); }
    }
    r := Pointer(b);
  }

  method MarshalList(h: Heap, l: List) returns (r: Marshalled)
    requires h.Valid() && Proper(Elements(l))
    modifies h
    ensures Outcome(h, old(h.blocks), Elements(l), r) && Refusal(h.short, Elements(l), r)
    ensures r.Pointer? ==> fresh(r.b.items)
  {
    ghost var data := Elements(l);
    var len, p := 0, l;
    while p.Cons?
      invariant len + |Elements(p)| == |data|
      decreases p
    {
      len, p := len + 1, p.cdr;
    }
    if len == 0 { return Null; }
    var block := h.Malloc([]);
    if block.None? { return Error(ENOMEM); }
    var b := new Bindings(block.value, len);
    ghost var base := h.blocks;
    assert base == old(h.blocks)[b.address := []] && base - {b.address} == old(h.blocks);
    p := l;
    var i := 0;
    while p.Cons?
      invariant i <= |data| && Elements(p) == data[i..]
      invariant Filled(h, base, b.items, i, data)
      invariant forall j :: 0 <= j < i ==> Bindable(data[j])
      decreases p
    {
      assert data[i] == p.car && data[i + 1..] == data[i..][1..];
      var rc := FillOne(h, b, i, p.car, base, data);
      if rc != 0 { return Error(rc); }
      i, p := i + 1, p.cdr;
    }
    r := Pointer(b);
  }

  /** osi_marshal_bindings */
  method Marshal(h: Heap, x: Argument) returns (r: Marshalled)
    requires h.Valid() && Proper(DataOf(x))
    modifies h
    ensures x.Neither? ==> r == Error(EINVAL) && h.blocks == old(h.blocks) && h.Valid()
    ensures !x.Neither? ==> Outcome(h, old(h.blocks), DataOf(x), r) && Refusal(h.short, DataOf(x), r)
    ensures r.Pointer? ==> fresh(r.b.items)
  {
    match x
    case ListOf(p) => r := MarshalList(h, p);
    case VectorOf(v) => r := MarshalVector(h, v);
    case Neither => r := Error(EINVAL);
  }

  /** get_binding; None is its error for an unknown type. Text is read back by the strict decoder. */
  function GetBinding(b: Binding, blocks: map<Address, seq<Byte>>): Option<Datum> {
    match b
    case NullBinding => Some(False)
    case IntegerBinding(i) => Some(Integer(i))
    case FloatBinding(d) => Some(Flonum(d))
    case TextBinding(a, size) =>
      if a.Some? && a.value in blocks && size <= |blocks[a.value]| then
        var s := Utf8.Decode(blocks[a.value][..size]);
        if s.Some? then Some(Text(s.value)) else None
      else None
    case BlobBinding(a, size) =>
      if a.Some? && a.value in blocks && size <= |blocks[a.value]| then Some(Bytevector(blocks[a.value][..size]))
      else None
    case BadBinding => None
  }

  /** One binding read back is the datum it was made from, text included. */
  lemma {:induction false} ReadBack(b: Binding, datum: Datum, blocks: map<Address, seq<Byte>>)
    requires Stands(b, datum, blocks)
    ensures GetBinding(b, blocks) == Some(datum)
  {
    if datum.Text? {
      Utf8.RoundTrip(datum.s);
      assert blocks[b.utf8.value][..b.size] == Utf8.Encode(datum.s);
    } else if datum.Bytevector? {
      assert blocks[b.blob.value][..b.size] == datum.b;
    }
  }

  /** osi_get_bindings on what Marshal returned: the marshalled values, as a vector. */
  method GetBindings(h: Heap, r: Marshalled, ghost data: seq<Datum>) returns (v: Option<seq<Datum>>)
    requires !r.Error? && (r.Null? ==> data == [])
    requires r.Pointer? ==> r.b.items.Length == |data| && StandFor(r.b.items[..], data, h.blocks)
    ensures v == Some(data)
  {
    if r.Null? { return Some([]); }
    var items, len := r.b.items, r.b.items.Length;
    var out: seq<Datum> := [];
    for i := 0 to len
      invariant out == data[..i]
    {
      assert items[..][i] == items[i];
      ReadBack(items[i], data[i], h.blocks);
      var x := GetBinding(items[i], h.blocks);
      if x.None? { return None; }
      out := out + [x.value];
    }
    assert data[..len] == data;
    v := Some(out);
  }

  /** osi_unmarshal_bindings: each block is released, once, and no other. */
  method Unmarshal(h: Heap, r: Marshalled, ghost base: map<Address, seq<Byte>>)
    requires !r.Error? && h.Valid()
    requires r.Null? ==> base == h.blocks
    requires r.Pointer? ==>
               r.b.address !in base && Separate(r.b.items[..]) && OwnedBy(r.b.items[..]) !! {r.b.address}
               && OwnedBy(r.b.items[..]) <= h.blocks.Keys
               && h.blocks - OwnedBy(r.b.items[..]) == base[r.b.address := []]
    modifies h`blocks, if r.Pointer? then {r.b.items} else {}
    ensures h.Valid() && h.blocks == base
  {
    if r.Null? { return; }
    var items := r.b.items;
    assert items[..items.Length] == items[..];
    h.FreeBindings(items, items.Length);
    h.Free(r.b.address);
  }

  /** Whatever is bindable comes back as it was, and marshalling then unmarshalling leaves the
      heap as it was, whether or not it succeeds. */
  method RoundTrip(h: Heap, x: Argument) returns (v: Option<seq<Datum>>)
    requires h.Valid() && Proper(DataOf(x)) && !x.Neither?
    modifies h
    ensures h.blocks == old(h.blocks)
    ensures v.Some? ==> v.value == DataOf(x)
    ensures !h.short ==> (v.Some? <==> forall i :: 0 <= i < |DataOf(x)| ==> Bindable(DataOf(x)[i]))
  {
    var r := Marshal(h, x);
    if r.Error? { return None; }
    ghost var data := DataOf(x);
    assert data[..|data|] == data;
    if r.Pointer? { assert r.b.items[..|data|] == r.b.items[..]; }
    v := GetBindings(h, r, data);
    Unmarshal(h, r, old(h.blocks));
  }
}
