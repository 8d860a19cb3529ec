// SIDs: <locator><function>, in both encodings of a segment list.

module Sid {
  import opened Wrappers
  import opened Bits
  import opened Csid

  const FUNCTION_BITS: nat := 16
  const MIN_DOMAIN_FUNCTION_ID: nat := 0xe000
  const MAX_DOMAIN_FUNCTION_ID: nat := 0xefff
  const NODE_END_FUNCTION_ID: nat := 0xfff0
  const USID_GIB_MIN: nat := 0x0001
  const USID_GIB_MAX: nat := 0xdfff

  // 32 bits of block, C-SIDs of 16 bits.
  const F3216: Layout := Layout(32, 16)

  // An IPv6 prefix; what parse_locator accepts is a Locator.
  datatype Prefix = Prefix(net: Address, len: nat) {
    predicate IsLocator() {
      && len + FUNCTION_BITS <= 128
      && net < Pow2(128)
      && Mod(net, Pow2(128 - len)) == 0
    }
  }

  predicate Contains(p: Prefix, a: Address)
    requires p.len <= 128
  {
    Div(a, Pow2(128 - p.len)) == Div(p.net, Pow2(128 - p.len))
  }

  function Broadcast(p: Prefix): Address
    requires p.len <= 128
  {
    p.net + Pow2(128 - p.len) - 1
  }

  predicate Overlaps(p: Prefix, q: Prefix)
    requires p.len <= 128 && q.len <= 128
  {
    || Contains(p, q.net) || Contains(p, Broadcast(q))
    || Contains(q, p.net) || Contains(q, Broadcast(p))
  }

  predicate Covers(p: Prefix, a: Address)
    requires p.len <= 128
  {
    p.net <= a < p.net + Pow2(128 - p.len)
  }

  // A locator contains the addresses from its own to its last.
  lemma ContainsIs(p: Prefix, a: Address)
    requires p.IsLocator()
    ensures Contains(p, a) <==> Covers(p, a)
  {
    hide Bits.Pow2, Bits.Div, Bits.Mod;
    var m := Pow2(128 - p.len);
    var q, r := Div(a, m), Mod(a, m);
    var n := Div(p.net, m);
    DivMod(a, m);
    DivMod(p.net, m);
    if q < n {
      Product(m, q + 1, n);
      assert m * (q + 1) == q * m + m;
    } else if n < q {
      Product(m, n + 1, q);
      assert m * (n + 1) == n * m + m;
    }
  }

  // Two locators pass the test exactly if they share an address.
  lemma OverlapsIff(p: Prefix, q: Prefix)
    requires p.IsLocator() && q.IsLocator()
    ensures Overlaps(p, q) <==> exists a :: Covers(p, a) && Covers(q, a)
  {
    hide Bits.Pow2, Bits.Div, Bits.Mod, Contains;
    ContainsIs(p, q.net);
    ContainsIs(p, Broadcast(q));
    ContainsIs(q, p.net);
    ContainsIs(q, Broadcast(p));
    if p.net <= q.net {
      assert Covers(q, q.net);
      assert Covers(p, q.net) ==> Overlaps(p, q);
    } else {
      assert Covers(p, p.net);
      assert Covers(q, p.net) ==> Overlaps(p, q);
    }
    assert Covers(q, Broadcast(q)) && Covers(p, Broadcast(p));
  }

  lemma SharingOverlaps(p: Prefix, q: Prefix, a: Address)
    requires p.IsLocator() && q.IsLocator()
    requires Contains(p, a) && Contains(q, a)
    ensures Overlaps(p, q)
  {
    hide Bits.Pow2, Bits.Div, Bits.Mod, Contains, Covers, Overlaps;
    ContainsIs(p, a);
    ContainsIs(q, a);
    OverlapsIff(p, q);
  }

  // ------------------------------------------------------------------
  // The SID of a function inside a locator
  // ------------------------------------------------------------------
  function SidFor(locator: Prefix, function_id: int): Option<Address> {
    if locator.len + FUNCTION_BITS > 128 || function_id < 0 || function_id >= Pow2(FUNCTION_BITS) then None
    else Some(BitOr(locator.net, function_id * Pow2(128 - locator.len - FUNCTION_BITS)))
  }

  lemma FunctionFits(locator: Prefix)
    requires locator.len == 48
    ensures SidFor(locator, 1).Some?
  {
    Pow2Values();
  }

  // The function field sits right below the locator: the SID lies in the
  // locator and gives back both.
  lemma SidForValue(locator: Prefix, f: nat)
    requires locator.IsLocator() && f < Pow2(FUNCTION_BITS)
    ensures SidFor(locator, f) == Some(locator.net + f * Pow2(112 - locator.len))
    ensures Contains(locator, SidFor(locator, f).value)
    ensures Mod(SidFor(locator, f).value, Pow2(128 - locator.len)) == f * Pow2(112 - locator.len)
  {
    hide Bits.Pow2, Bits.Div, Bits.Mod, Bits.BitOr;
    var k := 128 - locator.len;
    var u := Pow2(112 - locator.len);
    Pow2Add(16, 112 - locator.len);
    var y := f * u;
    DigitBound(f, Pow2(16), 0, u);
    var x := Div(locator.net, Pow2(k));
    DivMod(locator.net, Pow2(k));
    OrDisjoint(x, k, y);
    DivModUnique(x * Pow2(k) + y, x, Pow2(k), y);
  }

  // ------------------------------------------------------------------
  // microSID
  // ------------------------------------------------------------------
  function NodeId(locator: Prefix): nat {
    locator.net / 0x1_0000_0000_0000_0000_0000 % 0x1_0000
  }

  predicate UsidLocator(locator: Prefix) {
    locator.IsLocator() && locator.len == 48 && USID_GIB_MIN <= NodeId(locator) <= USID_GIB_MAX
  }

  // The /32 block and the node C-SID make up the whole locator.
  lemma UsidLocatorValue(locator: Prefix)
    requires UsidLocator(locator)
    ensures locator.net % 0x1_0000_0000_0000_0000_0000 == 0
    ensures locator.net == Block(F3216, locator.net) + NodeId(locator) * 0x1_0000_0000_0000_0000_0000
  {
    Pow2Values();
    hide Bits.Pow2;
  }

  // ------------------------------------------------------------------
  // encode and drop_leading
  // ------------------------------------------------------------------
  // What an ingress pushes for a logical segment list.
  ghost function Encoded(segments: seq<Address>, usid: bool): (pushed: seq<Address>)
    ensures segments != [] ==> pushed != []
    ensures !usid || !Packable(F3216, segments) ==> pushed == segments
  {
    if usid && Packable(F3216, segments) then
      PackedNonEmpty(F3216, segments);
      Packed(F3216, segments)
    else segments
  }

  method Encode(segments: seq<Address>, usid: bool) returns (pushed: seq<Address>)
    ensures pushed == Encoded(segments, usid)
  {
    if usid {
      var packed := PackNextCsid(F3216, segments);
      if packed.Some? {
        return packed.value;
      }
    }
    return segments;
  }

  function Trimmed(transit: seq<Address>, own: Address): seq<Address> {
    if transit != [] && transit[0] == own then Trimmed(transit[1..], own) else transit
  }

  method DropLeading(transit: seq<Address>, own: Address) returns (r: seq<Address>)
    ensures r == Trimmed(transit, own)
  {
    r := transit;
    while r != [] && r[0] == own
      invariant Trimmed(r, own) == Trimmed(transit, own)
    {
      r := r[1..];
    }
  }

  // Only leading occurrences go: what stays is a suffix, everything dropped
  // was `own`, and the suffix does not begin with it.
  lemma {:induction false} TrimmedIsSuffix(transit: seq<Address>, own: Address) returns (k: nat)
    ensures k <= |transit| && Trimmed(transit, own) == transit[k..]
    ensures forall i | 0 <= i < k :: transit[i] == own
    ensures k < |transit| ==> transit[k] != own
  {
    if transit != [] && transit[0] == own {
      var j := TrimmedIsSuffix(transit[1..], own);
      k := j + 1;
      assert transit[1..][j..] == transit[k..];
      if k < |transit| {
        assert transit[1..][j] == transit[k];
      }
      forall i | 0 <= i < k
        ensures transit[i] == own
      {
        if i > 0 {
          assert transit[1..][i - 1] == transit[i];
        }
      }
    } else {
      k := 0;
    }
  }
}
