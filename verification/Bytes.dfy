/** Little-endian numbers and runs of them: the vocabulary of the wire format. */
module Bytes {
  type u8 = x: int | 0 <= x < 0x100
  type u16 = x: int | 0 <= x < 0x1_0000
  type u32 = x: int | 0 <= x < 0x1_0000_0000
  type u64 = x: int | 0 <= x < 0x1_0000_0000_0000_0000
  type i16 = x: int | -0x8000 <= x < 0x8000

  function Pow256(n: nat): (p: nat)
    ensures p > 0
  {
    if n == 0 then 1 else 256 * Pow256(n - 1)
  }

  lemma Pow256Values()
    ensures Pow256(1) == 0x100 && Pow256(2) == 0x1_0000 && Pow256(4) == 0x1_0000_0000
    ensures Pow256(8) == 0x1_0000_0000_0000_0000
  {
    assert Pow256(2) == 256 * Pow256(1);
    assert Pow256(4) == 256 * Pow256(3) && Pow256(3) == 256 * Pow256(2);
    assert Pow256(8) == 256 * Pow256(7) && Pow256(7) == 256 * Pow256(6);
    assert Pow256(6) == 256 * Pow256(5) && Pow256(5) == 256 * Pow256(4);
  }

  /** The n low bytes of v, least significant first. */
  function Le(v: nat, n: nat): (s: seq<u8>)
    ensures |s| == n
  {
    if n == 0 then [] else [v % 256] + Le(v / 256, n - 1)
  }

  function UnLe(s: seq<u8>): nat {
    if s == [] then 0 else s[0] + 256 * UnLe(s[1..])
  }

  lemma {:induction false} UnLeBound(s: seq<u8>)
    ensures UnLe(s) < Pow256(|s|)
  {
    if s != [] {
      UnLeBound(s[1..]);
      assert UnLe(s[1..]) <= Pow256(|s| - 1) - 1;
    }
  }

  lemma {:induction false} LeUnLe(s: seq<u8>)
    ensures Le(UnLe(s), |s|) == s
  {
    if s != [] {
      LeUnLe(s[1..]);
      assert UnLe(s) % 256 == s[0] && UnLe(s) / 256 == UnLe(s[1..]);
    }
  }

  lemma {:induction false} UnLeLe(v: nat, n: nat)
    requires v < Pow256(n)
    ensures UnLe(Le(v, n)) == v
  {
    if n > 0 {
      assert v / 256 < Pow256(n - 1);
      UnLeLe(v / 256, n - 1);
      assert Le(v, n)[1..] == Le(v / 256, n - 1);
    }
  }

  /** Appending the next more significant byte, as a reader does. */
  lemma {:induction false} UnLeSnoc(s: seq<u8>, b: u8)
    ensures UnLe(s + [b]) == UnLe(s) + b * Pow256(|s|)
  {
    if s != [] {
      UnLeSnoc(s[1..], b);
      assert (s + [b])[1..] == s[1..] + [b];
      assert 256 * (b * Pow256(|s| - 1)) == b * Pow256(|s|);
    }
  }

  /** Splitting off the bytes already written, as a writer does. */
  lemma {:induction false} LeSplit(v: nat, k: nat, n: nat)
    requires k < n
    ensures Le(v, n)[..k + 1] == Le(v, n)[..k] + [v / Pow256(k) % 256]
  {
    if k > 0 {
      LeSplit(v / 256, k - 1, n - 1);
      assert Pow256(k) == 256 * Pow256(k - 1);
      DivDiv(v, Pow256(k - 1));
      var rest := Le(v / 256, n - 1);
      assert Le(v, n)[..k + 1] == [v % 256] + rest[..k];
      assert Le(v, n)[..k] == [v % 256] + rest[..k - 1];
    }
  }

  lemma DivDiv(v: nat, p: nat)
    requires p > 0
    ensures v / 256 / p == v / (256 * p)
  {
    var a := v / 256;
    var b := a / p;
    var low := 256 * (a % p) + v % 256;
    assert a == p * b + a % p;
    assert v == 256 * p * b + low;
    assert low < 256 * p;
    QuotientOfSum(b, 256 * p, low);
  }

  lemma QuotientOfSum(q: nat, p: nat, r: nat)
    requires 0 <= r < p
    ensures (p * q + r) / p == q
  {
    var x := p * q + r;
    assert p * (x / p - q) == r - x % p;
    MultipleGrows(p, x / p - q);
  }

  lemma MultipleGrows(p: int, d: int)
    requires p >= 0
    ensures d == 0 || p * d >= p || p * d <= -p
  {
  }

  function Sum(widths: seq<nat>): nat {
    if widths == [] then 0 else widths[0] + Sum(widths[1..])
  }

  /** Every value fits the width at the same place. */
  ghost predicate Fit(values: seq<nat>, widths: seq<nat>) {
    && |values| == |widths|
    && forall k | 0 <= k < |values| :: values[k] < Pow256(widths[k])
  }

  /** The values one after the other, each in its width. */
  function Pack(values: seq<nat>, widths: seq<nat>): (s: seq<u8>)
    requires |values| == |widths|
    ensures |s| == Sum(widths)
  {
    if values == [] then [] else Le(values[0], widths[0]) + Pack(values[1..], widths[1..])
  }

  /** The values at the front of b, one for each width. */
  function Unpack(widths: seq<nat>, b: seq<u8>): (values: seq<nat>)
    requires Sum(widths) <= |b|
    ensures |values| == |widths|
  {
    if widths == [] then [] else [UnLe(b[..widths[0]])] + Unpack(widths[1..], b[widths[0]..])
  }

  lemma {:induction false} UnpackPack(values: seq<nat>, widths: seq<nat>, rest: seq<u8>)
    requires Fit(values, widths)
    ensures Sum(widths) <= |Pack(values, widths) + rest|
    ensures Unpack(widths, Pack(values, widths) + rest) == values
  {
    hide UnLe, Le;
    if values != [] {
      UnLeLe(values[0], widths[0]);
      UnpackPack(values[1..], widths[1..], rest);
      var b := Pack(values, widths) + rest;
      assert b[..widths[0]] == Le(values[0], widths[0]);
      assert b[widths[0]..] == Pack(values[1..], widths[1..]) + rest;
    }
  }

  lemma {:induction false} PackUnpack(widths: seq<nat>, b: seq<u8>)
    requires Sum(widths) <= |b|
    ensures Fit(Unpack(widths, b), widths)
    ensures Pack(Unpack(widths, b), widths) == b[..Sum(widths)]
  {
    hide UnLe, Le;
    if widths != [] {
      var w := widths[0];
      UnLeBound(b[..w]);
      LeUnLe(b[..w]);
      PackUnpack(widths[1..], b[w..]);
      var values := Unpack(widths, b);
      assert values[1..] == Unpack(widths[1..], b[w..]);
      assert b[..Sum(widths)] == b[..w] + b[w..][..Sum(widths[1..])];
    }
  }

  lemma Window(b: seq<u8>, i: nat, j: nat, n: nat)
    requires i + j + n <= |b|
    ensures b[i..][j..j + n] == b[i + j..i + j + n]
  {
  }

  /** Each value stands at the offset the widths before it add up to. */
  lemma {:induction false} UnpackAt(widths: seq<nat>, b: seq<u8>, k: nat)
    requires Sum(widths) <= |b| && k < |widths|
    ensures Sum(widths[..k]) + widths[k] <= |b|
    ensures Unpack(widths, b)[k] == UnLe(b[Sum(widths[..k])..Sum(widths[..k]) + widths[k]])
  {
    hide Unpack, Sum, UnLe;
    UnpackStep(widths, b, k);
    SumTake(widths, k);
    if k > 0 {
      UnpackAt(widths[1..], b[widths[0]..], k - 1);
      Window(b, widths[0], Sum(widths[1..][..k - 1]), widths[k]);
    }
  }

  lemma UnpackStep(widths: seq<nat>, b: seq<u8>, k: nat)
    requires Sum(widths) <= |b| && k < |widths|
    ensures Sum(widths) == widths[0] + Sum(widths[1..])
    ensures k == 0 ==> Unpack(widths, b)[k] == UnLe(b[..widths[0]])
    ensures k > 0 ==> Unpack(widths, b)[k] == Unpack(widths[1..], b[widths[0]..])[k - 1]
  {
  }

  lemma SumTake(widths: seq<nat>, k: nat)
    requires k <= |widths|
    ensures Sum(widths[..k]) == if k == 0 then 0 else widths[0] + Sum(widths[1..][..k - 1])
  {
    if k > 0 {
      assert widths[..k][1..] == widths[1..][..k - 1];
    }
  }

  /** A two's complement 16-bit number from and to its unsigned bit pattern. */
  function Signed(raw: u16): i16 {
    if raw < 0x8000 then raw else raw - 0x1_0000
  }

  function Unsigned(v: i16): (raw: u16)
    ensures Signed(raw) == v
  {
    if v >= 0 then v else v + 0x1_0000
  }
}
