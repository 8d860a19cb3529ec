// NEXT-C-SID containers: reading the C-SIDs of an address and packing a
// segment list into as few addresses as its order allows.

module Csid {
  import opened Wrappers
  import opened Bits

  // An IPv6 address as the number it is.
  type Address = nat

  // `block` bits of Locator-Block, then fields of `csid` bits, then `Tail`
  // bits that are no whole field. 32 and 16 for F3216.
  datatype Layout = Layout(block: nat, csid: nat) {
    ghost predicate Valid() {
      block <= 128 && csid >= 1
    }

    function Width(): nat
      requires Valid()
    {
      128 - block
    }

    function Per(): nat
      requires Valid()
    {
      Width() / csid
    }

    function Tail(): (t: nat)
      requires Valid()
      ensures t + Per() * csid == Width()
    {
      Width() - Per() * csid
    }
  }

  // The weight of a field with n fields below it.
  function Unit(l: Layout, n: nat): (u: nat)
    requires l.Valid()
    ensures u > 0
  {
    Pow2(l.Tail() + n * l.csid)
  }

  function Radix(l: Layout): (r: nat)
    requires l.Valid()
    ensures r > 0
  {
    Pow2(l.csid)
  }

  lemma UnitStep(l: Layout, n: nat)
    requires l.Valid()
    ensures Unit(l, n + 1) == Unit(l, n) * Radix(l)
  {
    Pow2Add(l.Tail() + n * l.csid, l.csid);
    assert l.Tail() + (n + 1) * l.csid == l.Tail() + n * l.csid + l.csid;
  }

  lemma UnitOfPer(l: Layout)
    requires l.Valid()
    ensures Unit(l, l.Per()) == Pow2(l.Width()) && Unit(l, 0) == Pow2(l.Tail())
  {
  }

  // ------------------------------------------------------------------
  // Fields of a number
  // ------------------------------------------------------------------
  // The number whose topmost of n fields are cs, zero below.
  function Place(l: Layout, n: nat, cs: seq<nat>): nat
    requires l.Valid() && |cs| <= n
  {
    if cs == [] then 0 else cs[0] * Unit(l, n - 1) + Place(l, n - 1, cs[1..])
  }

  predicate AreFields(l: Layout, cs: seq<nat>)
    requires l.Valid()
  {
    forall i | 0 <= i < |cs| :: cs[i] < Radix(l)
  }

  // Non-zero fields: what a container may carry.
  predicate AreCsids(l: Layout, cs: seq<nat>)
    requires l.Valid()
  {
    AreFields(l, cs) && forall i | 0 <= i < |cs| :: cs[i] > 0
  }

  lemma {:induction false} PlaceBound(l: Layout, n: nat, cs: seq<nat>)
    requires l.Valid() && |cs| <= n && AreFields(l, cs)
    ensures Place(l, n, cs) < Unit(l, n)
  {
    if cs != [] {
      hide Bits.Pow2, Bits.Div, Bits.Mod, Unit, Radix;
      PlaceBound(l, n - 1, cs[1..]);
      UnitStep(l, n - 1);
      DigitBound(cs[0], Radix(l), Place(l, n - 1, cs[1..]), Unit(l, n - 1));
    }
  }

  lemma DigitBound(c: nat, r: nat, p: nat, u: nat)
    requires c < r && p < u
    ensures c * u + p < u * r
  {
    Product(u, c + 1, r);
    assert u * (c + 1) == c * u + u;
  }

  lemma {:induction false} PlaceZeros(l: Layout, n: nat, cs: seq<nat>)
    requires l.Valid() && |cs| < n
    ensures Place(l, n, cs + [0]) == Place(l, n, cs)
  {
    if cs != [] {
      assert (cs + [0])[1..] == cs[1..] + [0];
      PlaceZeros(l, n - 1, cs[1..]);
    }
  }

  // Appending a field adds it at its own weight, below everything placed.
  lemma {:induction false} PlaceAppend(l: Layout, n: nat, cs: seq<nat>, c: nat)
    requires l.Valid() && |cs| < n
    ensures Place(l, n, cs + [c]) == Place(l, n, cs) + c * Unit(l, n - 1 - |cs|)
  {
    if cs == [] {
      assert ([] + [c])[1..] == [];
    } else {
      assert (cs + [c])[1..] == cs[1..] + [c];
      PlaceAppend(l, n - 1, cs[1..], c);
    }
  }

  lemma {:induction false} PlaceIsMultiple(l: Layout, n: nat, cs: seq<nat>) returns (x: nat)
    requires l.Valid() && |cs| <= n
    ensures Place(l, n, cs) == x * Unit(l, n - |cs|)
  {
    if cs == [] {
      x := 0;
    } else {
      hide Bits.Pow2, Bits.Div, Bits.Mod, Unit, Radix;
      var y := PlaceIsMultiple(l, n - 1, cs[1..]);
      var k := UnitMultiple(l, n - |cs|, n - 1);
      var u := Unit(l, n - |cs|);
      x := cs[0] * k + y;
      MultipleSum(cs[0], k, y, u);
    }
  }

  lemma {:induction false} UnitMultiple(l: Layout, a: nat, b: nat) returns (k: nat)
    requires l.Valid() && a <= b
    ensures Unit(l, b) == k * Unit(l, a)
  {
    Pow2Add((b - a) * l.csid, l.Tail() + a * l.csid);
    assert (b - a) * l.csid + (l.Tail() + a * l.csid) == l.Tail() + b * l.csid;
    k := Pow2((b - a) * l.csid);
  }

  // The n fields of a number, topmost first.
  function Read(l: Layout, n: nat, v: nat): seq<nat>
    requires l.Valid()
  {
    if n == 0 then [] else [Div(v, Unit(l, n - 1))] + Read(l, n - 1, Mod(v, Unit(l, n - 1)))
  }

  function Zeros(n: nat): seq<nat> {
    if n == 0 then [] else [0] + Zeros(n - 1)
  }

  lemma {:induction false} ReadPlaced(l: Layout, n: nat, cs: seq<nat>)
    requires l.Valid() && |cs| <= n && AreFields(l, cs)
    ensures Read(l, n, Place(l, n, cs)) == cs + Zeros(n - |cs|)
  {
    hide Bits.Pow2, Bits.Div, Bits.Mod, Unit, Radix;
    if n > 0 {
      var u := Unit(l, n - 1);
      if cs == [] {
        DivModUnique(0, 0, u, 0);
        ReadPlaced(l, n - 1, []);
      } else {
        PlaceBound(l, n - 1, cs[1..]);
        DivModUnique(Place(l, n, cs), cs[0], u, Place(l, n - 1, cs[1..]));
        ReadPlaced(l, n - 1, cs[1..]);
      }
    }
  }

  lemma {:induction false} PlaceRead(l: Layout, n: nat, v: nat)
    requires l.Valid() && v < Unit(l, n) && Mod(v, Unit(l, 0)) == 0
    ensures |Read(l, n, v)| == n && AreFields(l, Read(l, n, v))
    ensures Place(l, n, Read(l, n, v)) == v
  {
    hide Bits.Pow2, Bits.Div, Bits.Mod, Unit, Radix;
    if n > 0 {
      var u := Unit(l, n - 1);
      var k := UnitMultiple(l, 0, n - 1);
      RemainderMultiple(v, u, Unit(l, 0), k);
      PlaceRead(l, n - 1, Mod(v, u));
      UnitStep(l, n - 1);
      DivLess(v, u, Radix(l));
      DivMod(v, u);
      var r := Read(l, n, v);
      assert r[1..] == Read(l, n - 1, Mod(v, u));
    } else {
      SmallMod(v, Unit(l, 0));
    }
  }

  lemma SmallMod(v: nat, m: nat)
    requires v < m
    ensures Mod(v, m) == v
  {
    DivModUnique(v, 0, m, v);
  }

  lemma RemainderMultiple(v: nat, u: nat, m: nat, k: nat)
    requires m > 0 && u > 0 && u == k * m && Mod(v, m) == 0
    ensures Mod(Mod(v, u), m) == 0
  {
    hide Bits.Div, Bits.Mod;
    DivMod(v, m);
    DivMod(v, u);
    var q, d, r := Div(v, m), Div(v, u), Mod(v, u);
    assert d * (k * m) == (d * k) * m;
    var x := q - d * k;
    assert q * m - (d * k) * m == x * m;
    if x < 0 {
      Product(m, x, -1);
    }
    DivModUnique(r, x, m, 0);
  }

  // A field is what shifting and masking reads there.
  lemma {:induction false} ReadIsShiftAndMask(l: Layout, n: nat, v: nat, i: nat)
    requires l.Valid() && v < Unit(l, n) && i < n
    ensures |Read(l, n, v)| == n
    ensures Read(l, n, v)[i] == Mod(Div(v, Unit(l, n - 1 - i)), Radix(l))
  {
    hide Bits.Pow2, Bits.Div, Bits.Mod, Unit, Radix;
    var u := Unit(l, n - 1);
    ReadLength(l, n, v);
    if i == 0 {
      UnitStep(l, n - 1);
      DivLess(v, u, Radix(l));
      SmallMod(Div(v, u), Radix(l));
    } else {
      ReadIsShiftAndMask(l, n - 1, Mod(v, u), i - 1);
      FieldOfRemainder(l, n, v, i);
    }
  }

  lemma FieldOfRemainder(l: Layout, n: nat, v: nat, i: nat)
    requires l.Valid() && 0 < i < n
    ensures Mod(Div(Mod(v, Unit(l, n - 1)), Unit(l, n - 1 - i)), Radix(l)) == Mod(Div(v, Unit(l, n - 1 - i)), Radix(l))
  {
    hide Bits.Pow2, Bits.Div, Bits.Mod, Unit, Radix;
    UnitStep(l, n - 1 - i);
    var k := UnitMultiple(l, n - i, n - 1);
    FieldBelow(v, Unit(l, n - 1), Unit(l, n - 1 - i), Radix(l), k);
  }

  lemma {:induction false} ReadLength(l: Layout, n: nat, v: nat)
    requires l.Valid()
    ensures |Read(l, n, v)| == n
  {
    if n > 0 {
      ReadLength(l, n - 1, Mod(v, Unit(l, n - 1)));
    }
  }

  // A field below weight u does not see what stands at u and above.
  lemma FieldBelow(v: nat, u: nat, m: nat, r: nat, k: nat)
    requires u > 0 && m > 0 && r > 0 && u == k * (m * r)
    ensures Mod(Div(Mod(v, u), m), r) == Mod(Div(v, m), r)
  {
    hide Bits.Div, Bits.Mod;
    var q, s := Div(v, u), Mod(v, u);
    var a, b := Div(s, m), Mod(s, m);
    var e, f := Div(a, r), Mod(a, r);
    DivMod(v, u);
    DivMod(s, m);
    DivMod(a, r);
    Recombine(q, k, m, r, e, f, b);
    var w := q * k + e;
    DivModUnique(v, w * r + f, m, b);
    DivModUnique(w * r + f, w, r, f);
  }

  lemma Recombine(q: nat, k: nat, m: nat, r: nat, e: nat, f: nat, b: nat)
    ensures q * (k * (m * r)) + ((e * r + f) * m + b) == ((q * k + e) * r + f) * m + b
  {
    calc {
      ((q * k + e) * r + f) * m;
      ((q * k + e) * r) * m + f * m;
      { assert (q * k + e) * r == (q * k) * r + e * r; }
      ((q * k) * r + e * r) * m + f * m;
      ((q * k) * r) * m + (e * r) * m + f * m;
      { Reorder(k, m, r, q); }
      (k * (m * r)) * q + (e * r) * m + f * m;
      (k * (m * r)) * q + (e * r + f) * m;
    }
  }

  lemma Reorder(k: nat, m: nat, r: nat, q: nat)
    ensures (k * (m * r)) * q == ((q * k) * r) * m
  {
    assert (k * (m * r)) * q == (q * k) * (m * r);
  }

  // ------------------------------------------------------------------
  // The C-SIDs of an address
  // ------------------------------------------------------------------
  // cs are exactly the C-SIDs `a` carries after its block: non-zero fields
  // from the top, and nothing else below the block.
  ghost predicate Carries(l: Layout, a: Address, cs: seq<nat>)
    requires l.Valid()
  {
    0 < |cs| <= l.Per() && AreCsids(l, cs) && Mod(a, Pow2(l.Width())) == Place(l, l.Per(), cs)
  }

  function Strip(fields: seq<nat>): seq<nat> {
    if fields != [] && fields[|fields| - 1] == 0 then Strip(fields[..|fields| - 1]) else fields
  }

  lemma {:induction false} StripKeeps(l: Layout, n: nat, fields: seq<nat>)
    requires l.Valid() && |fields| <= n
    ensures Strip(fields) <= fields
    ensures Place(l, n, Strip(fields)) == Place(l, n, fields)
  {
    if fields != [] && fields[|fields| - 1] == 0 {
      var f := fields[..|fields| - 1];
      assert fields == f + [0];
      StripKeeps(l, n, f);
      PlaceZeros(l, n, f);
    }
  }

  lemma {:induction false} StripPadded(cs: seq<nat>, k: nat)
    requires cs != [] && cs[|cs| - 1] != 0
    ensures Strip(cs + Zeros(k)) == cs
  {
    if k == 0 {
      assert cs + [] == cs;
    } else {
      hide Strip, Zeros;
      PadOne(cs, k);
      StripOne(cs + Zeros(k - 1));
      StripPadded(cs, k - 1);
    }
  }

  lemma PadOne(cs: seq<nat>, k: nat)
    requires k > 0
    ensures cs + Zeros(k) == (cs + Zeros(k - 1)) + [0]
  {
    ZerosSnoc(k - 1);
    hide Zeros;
    var z := Zeros(k - 1);
    assert Zeros(k) == z + [0];
    assert cs + (z + [0]) == (cs + z) + [0];
  }

  lemma StripOne(f: seq<nat>)
    ensures Strip(f + [0]) == Strip(f)
  {
    assert (f + [0])[..|f|] == f;
  }

  lemma {:induction false} ZerosSnoc(k: nat)
    ensures Zeros(k + 1) == Zeros(k) + [0]
  {
    if k > 0 {
      ZerosSnoc(k - 1);
    }
  }

  // What _csids_of answers; None where it raises.
  function Decode(l: Layout, a: Address): Option<seq<nat>>
    requires l.Valid()
  {
    var v := Mod(a, Pow2(l.Width()));
    var cs := Strip(Read(l, l.Per(), v));
    if Mod(v, Pow2(l.Tail())) != 0 || cs == [] || 0 in cs then None else Some(cs)
  }

  // Decoding succeeds exactly on the addresses that carry C-SIDs, and then
  // gives the one sequence they carry.
  lemma DecodeExact(l: Layout, a: Address, cs: seq<nat>)
    requires l.Valid()
    ensures Decode(l, a) == Some(cs) <==> Carries(l, a, cs)
  {
    hide Bits.Pow2, Bits.Div, Bits.Mod, Unit, Radix;
    var v := Mod(a, Pow2(l.Width()));
    UnitOfPer(l);
    if Decode(l, a) == Some(cs) {
      PlaceRead(l, l.Per(), v);
      StripKeeps(l, l.Per(), Read(l, l.Per(), v));
      forall i | 0 <= i < |cs|
        ensures 0 < cs[i] < Radix(l)
      {
        assert cs[i] in cs;
      }
    }
    if Carries(l, a, cs) {
      ReadPlaced(l, l.Per(), cs);
      StripPadded(cs, l.Per() - |cs|);
      PlacedTail(l, cs);
    }
  }

  lemma PlacedTail(l: Layout, cs: seq<nat>)
    requires l.Valid() && |cs| <= l.Per()
    ensures Mod(Place(l, l.Per(), cs), Pow2(l.Tail())) == 0
  {
    hide Bits.Pow2, Bits.Div, Bits.Mod, Unit, Radix;
    UnitOfPer(l);
    var x := PlaceIsMultiple(l, l.Per(), cs);
    var k := UnitMultiple(l, 0, l.Per() - |cs|);
    assert x * (k * Unit(l, 0)) == (x * k) * Unit(l, 0);
    DivModUnique(Place(l, l.Per(), cs), x * k, Unit(l, 0), 0);
  }

  method CsidsOf(l: Layout, a: Address) returns (r: Option<seq<nat>>)
    requires l.Valid()
    ensures r == Decode(l, a)
    ensures r.Some? ==> Carries(l, a, r.value)
    ensures r.None? ==> forall cs :: !Carries(l, a, cs)
  {
    hide Bits.Pow2, Bits.Div, Bits.Mod, Unit, Radix, Carries, Read, Layout.Per, Layout.Width, Layout.Tail;
    forall cs
      ensures Decode(l, a) == Some(cs) <==> Carries(l, a, cs)
    {
      DecodeExact(l, a, cs);
    }
    var value := Mod(a, Pow2(l.Width()));
    if Mod(value, Pow2(l.Tail())) != 0 {
      return None;
    }
    var fields: seq<nat> := seq(l.Per(), i requires 0 <= i < l.Per() => Mod(Div(value, Unit(l, l.Per() - 1 - i)), Radix(l)));
    FieldsAreRead(l, value, fields);
    while fields != [] && fields[|fields| - 1] == 0
      invariant Strip(fields) == Strip(Read(l, l.Per(), value))
    {
      fields := fields[..|fields| - 1];
    }
    if fields == [] || 0 in fields {
      return None;
    }
    return Some(fields);
  }

  lemma FieldsAreRead(l: Layout, v: nat, fields: seq<nat>)
    requires l.Valid() && v < Pow2(l.Width()) && |fields| == l.Per()
    requires forall i | 0 <= i < l.Per() :: fields[i] == Mod(Div(v, Unit(l, l.Per() - 1 - i)), Radix(l))
    ensures fields == Read(l, l.Per(), v)
  {
    hide Bits.Pow2, Bits.Div, Bits.Mod, Unit, Radix, Read;
    UnitOfPer(l);
    ReadLength(l, l.Per(), v);
    forall i | 0 <= i < l.Per()
      ensures fields[i] == Read(l, l.Per(), v)[i]
    {
      ReadIsShiftAndMask(l, l.Per(), v, i);
    }
  }

  // ------------------------------------------------------------------
  // Containers
  // ------------------------------------------------------------------
  function Block(l: Layout, a: Address): nat
    requires l.Valid()
  {
    Div(a, Pow2(l.Width())) * Pow2(l.Width())
  }

  function Container(l: Layout, block: nat, cs: seq<nat>): Address
    requires l.Valid() && |cs| <= l.Per()
  {
    block + Place(l, l.Per(), cs)
  }

  // A container keeps the block and reads back as the C-SIDs put in it.
  lemma ContainerReadsBack(l: Layout, block: nat, cs: seq<nat>)
    requires l.Valid() && 0 < |cs| <= l.Per() && AreCsids(l, cs)
    requires Mod(block, Pow2(l.Width())) == 0
    ensures Decode(l, Container(l, block, cs)) == Some(cs)
    ensures Block(l, Container(l, block, cs)) == block
  {
    hide Bits.Pow2, Bits.Div, Bits.Mod, Unit, Radix;
    var m := Pow2(l.Width());
    PlaceBound(l, l.Per(), cs);
    UnitOfPer(l);
    DivMod(block, m);
    DivModUnique(Container(l, block, cs), Div(block, m), m, Place(l, l.Per(), cs));
    DecodeExact(l, Container(l, block, cs), cs);
  }

  // The address of one container, its C-SIDs or-ed in one by one.
  method BuildContainer(l: Layout, block: nat, cs: seq<nat>) returns (value: Address)
    requires l.Valid() && |cs| <= l.Per() && AreFields(l, cs)
    requires Mod(block, Pow2(l.Width())) == 0
    ensures value == Container(l, block, cs)
  {
    hide Bits.Pow2, Bits.Div, Bits.Mod, Unit, Radix, Place;
    value := block;
    assert Place(l, l.Per(), cs[..0]) == 0 by { PlaceEmpty(l, l.Per(), cs[..0]); }
    for i := 0 to |cs|
      invariant value == block + Place(l, l.Per(), cs[..i])
    {
      OrField(l, block, cs, i);
      value := BitOr(value, cs[i] * Unit(l, l.Per() - 1 - i));
    }
    assert cs[..|cs|] == cs;
  }

  lemma PlaceEmpty(l: Layout, n: nat, cs: seq<nat>)
    requires l.Valid() && cs == []
    ensures Place(l, n, cs) == 0
  {
  }

  lemma OrField(l: Layout, block: nat, cs: seq<nat>, i: nat)
    requires l.Valid() && i < |cs| <= l.Per() && AreFields(l, cs)
    requires Mod(block, Pow2(l.Width())) == 0
    ensures BitOr(block + Place(l, l.Per(), cs[..i]), cs[i] * Unit(l, l.Per() - 1 - i))
         == block + Place(l, l.Per(), cs[..i + 1])
  {
    hide Bits.Pow2, Bits.Div, Bits.Mod, Unit, Radix, Bits.BitOr, Place;
    var n := l.Per();
    var u, y := Unit(l, n - i), cs[i] * Unit(l, n - 1 - i);
    var x := PlaceIsMultiple(l, n, cs[..i]);
    var k := UnitMultiple(l, n - i, n);
    UnitOfPer(l);
    var b := Div(block, Pow2(l.Width()));
    DivMod(block, Pow2(l.Width()));
    MultipleSum(b, k, x, u);
    UnitStep(l, n - 1 - i);
    DigitBound(cs[i], Radix(l), 0, Unit(l, n - 1 - i));
    OrUnit(l, n - i, b * k + x, y);
    PlaceAppend(l, n, cs[..i], cs[i]);
    assert cs[..i] + [cs[i]] == cs[..i + 1];
  }

  lemma MultipleSum(a: nat, k: nat, x: nat, u: nat)
    ensures a * (k * u) + x * u == (a * k + x) * u
  {
    assert a * (k * u) == (a * k) * u;
  }

  lemma OrUnit(l: Layout, n: nat, x: nat, y: nat)
    requires l.Valid() && y < Unit(l, n)
    ensures BitOr(x * Unit(l, n), y) == x * Unit(l, n) + y
  {
    hide Bits.Pow2, Bits.BitOr;
    OrDisjoint(x, l.Tail() + n * l.csid, y);
  }

  // ------------------------------------------------------------------
  // Grouping: whole SIDs, in order, at most `per` C-SIDs a container
  // ------------------------------------------------------------------
  function Flatten<T>(parts: seq<seq<T>>): seq<T> {
    if parts == [] then [] else parts[0] + Flatten(parts[1..])
  }

  lemma {:induction false} FlattenConcat<T>(a: seq<seq<T>>, b: seq<seq<T>>)
    ensures Flatten(a + b) == Flatten(a) + Flatten(b)
  {
    if a == [] {
      assert a + b == b;
    } else {
      assert (a + b)[1..] == a[1..] + b;
      FlattenConcat(a[1..], b);
    }
  }

  // Which SIDs go into which container: `current` is open, `groups` wait.
  function Fill(per: nat, current: seq<seq<nat>>, groups: seq<seq<nat>>): seq<seq<seq<nat>>>
    decreases groups
  {
    if groups == [] then (if current == [] then [] else [current])
    else if |Flatten(current)| + |groups[0]| > per then [current] + Fill(per, [groups[0]], groups[1..])
    else Fill(per, current + [groups[0]], groups[1..])
  }

  ghost predicate Fits(per: nat, part: seq<seq<nat>>) {
    |Flatten(part)| <= per
  }

  // A way to put whole SIDs into containers without changing their order.
  ghost predicate IsGrouping(per: nat, parts: seq<seq<seq<nat>>>, groups: seq<seq<nat>>) {
    Flatten(parts) == groups && forall i | 0 <= i < |parts| :: Fits(per, parts[i])
  }

  lemma FlattenSnoc(part: seq<seq<nat>>, g: seq<nat>)
    ensures Flatten(part + [g]) == Flatten(part) + g
  {
    FlattenConcat(part, [g]);
    assert Flatten([g]) == g + Flatten<nat>([]);
  }

  lemma {:induction false} FillIsGrouping(per: nat, current: seq<seq<nat>>, groups: seq<seq<nat>>)
    requires Fits(per, current) && forall i | 0 <= i < |groups| :: 0 < |groups[i]| <= per
    ensures IsGrouping(per, Fill(per, current, groups), current + groups)
    ensures current != [] && (forall i | 0 <= i < |current| :: |current[i]| > 0) ==>
              forall i | 0 <= i < |Fill(per, current, groups)| :: |Flatten(Fill(per, current, groups)[i])| > 0
    decreases groups
  {
    if groups == [] {
      assert current + groups == current;
      assert Flatten([current]) == current + Flatten<seq<nat>>([]);
      if current != [] {
        assert Flatten(current) == current[0] + Flatten(current[1..]);
      }
    } else {
      var g, rest := groups[0], groups[1..];
      FlattenSnoc([], g);
      assert [] + [g] == [g];
      FlattenSnoc(current, g);
      if |Flatten(current)| + |g| > per {
        FillIsGrouping(per, [g], rest);
        assert current + groups == current + ([g] + rest);
        var tail := Fill(per, [g], rest);
        assert Flatten([current] + tail) == current + Flatten(tail) by { FlattenConcat([current], tail); FlattenSingle(current); }
        if current != [] {
          assert Flatten(current) == current[0] + Flatten(current[1..]);
        }
      } else {
        FillIsGrouping(per, current + [g], rest);
        assert current + groups == (current + [g]) + rest;
      }
    }
  }

  lemma FlattenSingle<T>(part: seq<T>)
    ensures Flatten([part]) == part
  {
    assert Flatten([part]) == part + Flatten<T>([]);
  }

  // Containers used when `used` places of the open one are taken.
  function Count(per: nat, used: nat, groups: seq<seq<nat>>): nat
    decreases groups
  {
    if groups == [] then 1
    else if used + |groups[0]| > per then 1 + Count(per, |groups[0]|, groups[1..])
    else Count(per, used + |groups[0]|, groups[1..])
  }

  lemma {:induction false} FillCount(per: nat, current: seq<seq<nat>>, groups: seq<seq<nat>>)
    requires current != []
    ensures |Fill(per, current, groups)| == Count(per, |Flatten(current)|, groups)
    decreases groups
  {
    if groups != [] {
      var g := groups[0];
      FlattenSnoc(current, g);
      FlattenSingle(g);
      if |Flatten(current)| + |g| > per {
        FillCount(per, [g], groups[1..]);
      } else {
        FillCount(per, current + [g], groups[1..]);
      }
    }
  }

  // Starting fuller never saves a container, and costs at most one.
  lemma {:induction false} CountMonotone(per: nat, a: nat, b: nat, groups: seq<seq<nat>>)
    ensures a <= b ==> Count(per, a, groups) <= Count(per, b, groups)
    ensures Count(per, a, groups) <= 1 + Count(per, b, groups)
    decreases groups
  {
    if groups != [] {
      var n, rest := |groups[0]|, groups[1..];
      CountMonotone(per, a + n, b + n, rest);
      CountMonotone(per, a + n, n, rest);
      CountMonotone(per, n, b + n, rest);
      CountMonotone(per, n, n, rest);
    }
  }

  // `part` still goes into the open container, `parts` into new ones: the
  // greedy count is never more.
  lemma {:induction false} GreedyIsMinimal(per: nat, used: nat, part: seq<seq<nat>>, parts: seq<seq<seq<nat>>>)
    requires used + |Flatten(part)| <= per
    requires forall i | 0 <= i < |parts| :: Fits(per, parts[i])
    ensures Count(per, used, part + Flatten(parts)) <= 1 + |parts|
    decreases |parts|, |part|
  {
    var groups := part + Flatten(parts);
    if part != [] {
      assert groups[1..] == part[1..] + Flatten(parts);
      assert Flatten(part) == part[0] + Flatten(part[1..]);
      GreedyIsMinimal(per, used + |part[0]|, part[1..], parts);
    } else if parts != [] {
      assert groups == parts[0] + Flatten(parts[1..]);
      assert Fits(per, parts[0]);
      GreedyIsMinimal(per, 0, parts[0], parts[1..]);
      CountMonotone(per, used, 0, groups);
    }
  }

  // No order-preserving grouping of whole SIDs needs fewer containers.
  lemma FillIsMinimal(per: nat, groups: seq<seq<nat>>, parts: seq<seq<seq<nat>>>)
    requires forall i | 0 <= i < |groups| :: 0 < |groups[i]| <= per
    requires IsGrouping(per, parts, groups)
    ensures |Fill(per, [], groups)| <= |parts|
  {
    if groups != [] {
      var g, rest := groups[0], groups[1..];
      assert Flatten<nat>([]) == [];
      assert [] + [g] == [g];
      FlattenSingle(g);
      FillCount(per, [g], rest);
      assert |Fill(per, [], groups)| == Count(per, 0, groups);
      assert parts != [] && Fits(per, parts[0]);
      GreedyIsMinimal(per, 0, parts[0], parts[1..]);
      assert groups == parts[0] + Flatten(parts[1..]);
    }
  }

  // ------------------------------------------------------------------
  // pack_next_csid
  // ------------------------------------------------------------------
  ghost predicate Packable(l: Layout, sids: seq<Address>)
    requires l.Valid()
  {
    forall i | 0 <= i < |sids| :: Block(l, sids[i]) == Block(l, sids[0]) && Decode(l, sids[i]).Some?
  }

  ghost function Groups(l: Layout, sids: seq<Address>): seq<seq<nat>>
    requires l.Valid() && Packable(l, sids)
  {
    seq(|sids|, i requires 0 <= i < |sids| => Decode(l, sids[i]).value)
  }

  // The containers pushed for a packable list: the greedy grouping, on the
  // one block of the SIDs.
  ghost function Packed(l: Layout, sids: seq<Address>): (packed: seq<Address>)
    requires l.Valid() && Packable(l, sids)
  {
    var parts := Fill(l.Per(), [], Groups(l, sids));
    FilledPartsAreCsids(l, sids, Groups(l, sids));
    seq(|parts|, i requires 0 <= i < |parts| => Container(l, Block(l, sids[0]), Flatten(parts[i])))
  }

  lemma PackedNonEmpty(l: Layout, sids: seq<Address>)
    requires l.Valid() && Packable(l, sids)
    ensures sids != [] ==> Packed(l, sids) != []
  {
    FilledPartsAreCsids(l, sids, Groups(l, sids));
    assert Flatten<seq<nat>>([]) == [];
  }

  method PackNextCsid(l: Layout, sids: seq<Address>) returns (r: Option<seq<Address>>)
    requires l.Valid()
    ensures r == if Packable(l, sids) then Some(Packed(l, sids)) else None
  {
    hide Bits.Pow2, Bits.Div, Bits.Mod, Unit, Radix, Fill, Flatten;
    var groups: seq<seq<nat>> := [];
    for i := 0 to |sids|
      invariant |groups| == i
      invariant Packable(l, sids[..i])
      invariant forall j | 0 <= j < i :: Decode(l, sids[j]) == Some(groups[j])
    {
      if Block(l, sids[i]) != Block(l, sids[0]) {
        return None;
      }
      var csids := CsidsOf(l, sids[i]);
      if csids.None? {
        return None;
      }
      groups := groups + [csids.value];
    }
    assert sids[..|sids|] == sids;
    assert groups == Groups(l, sids);
    var parts := FillContainers(l.Per(), groups);
    FilledPartsAreCsids(l, sids, groups);
    if sids == [] {
      FillEmpty(l.Per());
      return Some([]);
    }
    BlockAligned(l, sids[0]);
    var packed: seq<Address> := [];
    for i := 0 to |parts|
      invariant |packed| == i
      invariant forall j | 0 <= j < i :: packed[j] == Container(l, Block(l, sids[0]), Flatten(parts[j]))
    {
      assert 0 < |Flatten(parts[i])| <= l.Per() && AreCsids(l, Flatten(parts[i]));
      var value := BuildContainer(l, Block(l, sids[0]), Flatten(parts[i]));
      packed := packed + [value];
    }
    assert packed == Packed(l, sids);
    return Some(packed);
  }

  lemma FillEmpty(per: nat)
    ensures Fill(per, [], []) == []
  {
  }

  lemma BlockAligned(l: Layout, a: Address)
    requires l.Valid()
    ensures Mod(Block(l, a), Pow2(l.Width())) == 0
  {
    hide Bits.Pow2, Bits.Div, Bits.Mod, Unit, Radix;
    DivModUnique(Block(l, a), Div(a, Pow2(l.Width())), Pow2(l.Width()), 0);
  }

  // The loop that closes a container when the next SID does not fit whole.
  // The containers are kept as the SIDs in them; the source keeps their
  // concatenation.
  method FillContainers(per: nat, groups: seq<seq<nat>>) returns (parts: seq<seq<seq<nat>>>)
    ensures parts == Fill(per, [], groups)
  {
    parts := [];
    var current: seq<seq<nat>> := [];
    for i := 0 to |groups|
      invariant parts + Fill(per, current, groups[i..]) == Fill(per, [], groups)
    {
      assert groups[i..][1..] == groups[i + 1..];
      if |Flatten(current)| + |groups[i]| > per {
        assert parts + ([current] + Fill(per, [groups[i]], groups[i + 1..]))
            == (parts + [current]) + Fill(per, [groups[i]], groups[i + 1..]);
        parts := parts + [current];
        current := [];
        assert [] + [groups[i]] == [groups[i]];
      }
      current := current + [groups[i]];
    }
    if current != [] {
      parts := parts + [current];
    }
  }

  lemma {:induction false} FlattenAreCsids(l: Layout, part: seq<seq<nat>>)
    requires l.Valid() && forall i | 0 <= i < |part| :: AreCsids(l, part[i])
    ensures AreCsids(l, Flatten(part))
  {
    if part != [] {
      FlattenAreCsids(l, part[1..]);
    }
  }

  lemma {:induction false} FlattenMember<T>(parts: seq<seq<T>>, i: nat, j: nat)
    requires i < |parts| && j < |parts[i]|
    ensures parts[i][j] in Flatten(parts)
  {
    if i > 0 {
      FlattenMember(parts[1..], i - 1, j);
    }
  }

  lemma FilledPartsAreCsids(l: Layout, sids: seq<Address>, groups: seq<seq<nat>>)
    requires l.Valid() && |groups| == |sids|
    requires forall j | 0 <= j < |sids| :: Decode(l, sids[j]) == Some(groups[j])
    ensures sids == [] ==> Fill(l.Per(), [], groups) == []
    ensures IsGrouping(l.Per(), Fill(l.Per(), [], groups), groups)
    ensures forall i | 0 <= i < |Fill(l.Per(), [], groups)| ::
              var cs := Flatten(Fill(l.Per(), [], groups)[i]);
              0 < |cs| <= l.Per() && AreCsids(l, cs)
  {
    hide Bits.Pow2, Bits.Div, Bits.Mod, Unit, Radix;
    forall j | 0 <= j < |groups|
      ensures 0 < |groups[j]| <= l.Per() && AreCsids(l, groups[j])
    {
      DecodeExact(l, sids[j], groups[j]);
    }
    assert [] + groups == groups;
    assert Flatten<nat>([]) == [];
    FillIsGrouping(l.Per(), [], groups);
    var parts := Fill(l.Per(), [], groups);
    if groups != [] {
      FlattenSingle(groups[0]);
      assert [] + [groups[0]] == [groups[0]];
      assert parts == Fill(l.Per(), [groups[0]], groups[1..]);
      FillIsGrouping(l.Per(), [groups[0]], groups[1..]);
    }
    forall i | 0 <= i < |parts|
      ensures 0 < |Flatten(parts[i])| <= l.Per() && AreCsids(l, Flatten(parts[i]))
    {
      assert Fits(l.Per(), parts[i]);
      forall j | 0 <= j < |parts[i]|
        ensures AreCsids(l, parts[i][j])
      {
        FlattenMember(parts, i, j);
      }
      FlattenAreCsids(l, parts[i]);
    }
  }

  // Reading the containers back gives the C-SIDs of the SIDs packed, in
  // order; nothing is lost, added or reordered.
  lemma {:induction false} PackRoundTrip(l: Layout, sids: seq<Address>)
    requires l.Valid() && Packable(l, sids)
    ensures Packable(l, Packed(l, sids))
    ensures Flatten(Groups(l, Packed(l, sids))) == Flatten(Groups(l, sids))
  {
    hide Bits.Pow2, Bits.Div, Bits.Mod, Unit, Radix, Fill;
    var packed := Packed(l, sids);
    var groups := Groups(l, sids);
    var parts := Fill(l.Per(), [], groups);
    FilledPartsAreCsids(l, sids, groups);
    if sids != [] {
      BlockAligned(l, sids[0]);
    }
    forall i | 0 <= i < |packed|
      ensures Decode(l, packed[i]) == Some(Flatten(parts[i]))
      ensures Block(l, packed[i]) == Block(l, sids[0])
    {
      ContainerReadsBack(l, Block(l, sids[0]), Flatten(parts[i]));
    }
    FlattenTwice(parts, Groups(l, packed));
  }

  // No SID is split, the order is kept, no container overflows, and no
  // other such grouping makes do with fewer containers.
  lemma PackedIsMinimal(l: Layout, sids: seq<Address>, parts: seq<seq<seq<nat>>>)
    requires l.Valid() && Packable(l, sids)
    ensures exists own :: IsGrouping(l.Per(), own, Groups(l, sids)) && |own| == |Packed(l, sids)|
    ensures IsGrouping(l.Per(), parts, Groups(l, sids)) ==> |Packed(l, sids)| <= |parts|
  {
    hide Bits.Pow2, Bits.Div, Bits.Mod, Unit, Radix, Fill;
    var groups := Groups(l, sids);
    FilledPartsAreCsids(l, sids, groups);
    assert |Fill(l.Per(), [], groups)| == |Packed(l, sids)|;
    forall i | 0 <= i < |groups|
      ensures 0 < |groups[i]| <= l.Per()
    {
      DecodeExact(l, sids[i], groups[i]);
    }
    if IsGrouping(l.Per(), parts, groups) {
      FillIsMinimal(l.Per(), groups, parts);
    }
  }

  lemma {:induction false} FlattenTwice(parts: seq<seq<seq<nat>>>, flat: seq<seq<nat>>)
    requires |flat| == |parts| && forall i | 0 <= i < |parts| :: flat[i] == Flatten(parts[i])
    ensures Flatten(flat) == Flatten(Flatten(parts))
  {
    if parts != [] {
      FlattenTwice(parts[1..], flat[1..]);
      FlattenConcat(parts[0], Flatten(parts[1..]));
    }
  }
}
