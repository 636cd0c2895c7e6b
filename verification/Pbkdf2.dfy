/** PBKDF2 as the server writes it out (server/auth.go), against section 5.2 of
    RFC 8018. The pseudo-random function under the password is a parameter. */
module Pbkdf2 {

  newtype byte = x: int | 0 <= x < 0x100
  type Bytes = seq<byte>

  /** A pseudo-random function whose output is always `hLen` octets. */
  ghost predicate FixedLength(prf: Bytes -> Bytes, hLen: nat) {
    hLen > 0 && forall x :: |prf(x)| == hLen
  }

  lemma Octets(n: nat)
    ensures n / 0x1_000000 % 0x100 * 0x100_0000 + n / 0x1_0000 % 0x100 * 0x1_0000 + n / 0x100 % 0x100 * 0x100 + n % 0x100
         == n % 0x1_0000_0000
  {
    var a, b, c := n / 0x100, n / 0x1_0000, n / 0x1_000000;
    assert a == b * 0x100 + a % 0x100;
    assert b == c * 0x100 + b % 0x100;
    assert c == n / 0x1_0000_0000 * 0x100 + c % 0x100;
  }

  /** The number that four octets stand for, most significant first. */
  function Number(r: Bytes): nat
    requires |r| == 4
  {
    (r[0] as nat) * 0x100_0000 + (r[1] as nat) * 0x1_0000 + (r[2] as nat) * 0x100 + (r[3] as nat)
  }

  /** Four octets, most significant first; larger numbers wrap as `uint32` does. */
  function BigEndian(n: nat): (r: Bytes)
    ensures |r| == 4 && Number(r) == n % 0x1_0000_0000
  {
    Octets(n);
    [(n / 0x1_000000 % 0x100) as byte, (n / 0x1_0000 % 0x100) as byte, (n / 0x100 % 0x100) as byte, (n % 0x100) as byte]
  }

  /** Exclusive or, bit by bit. */
  function Either(a: byte, b: byte): (r: byte)
    ensures r as bv8 == (a as bv8) ^ (b as bv8)
  {
    ((a as bv8) ^ (b as bv8)) as byte
  }

  function Xor(a: Bytes, b: Bytes): (r: Bytes)
    requires |a| == |b|
    ensures |r| == |a| && forall j :: 0 <= j < |a| ==> r[j] == Either(a[j], b[j])
  {
    seq(|a|, j requires 0 <= j < |a| => Either(a[j], b[j]))
  }

  // ---- section 5.2 of RFC 8018 ----

  /** U_1 = PRF(P, S || INT(i)); U_c = PRF(P, U_{c-1}). */
  ghost function U(prf: Bytes -> Bytes, salt: Bytes, i: nat, c: nat): Bytes
    requires c >= 1
  {
    if c == 1 then prf(salt + BigEndian(i)) else prf(U(prf, salt, i, c - 1))
  }

  /** T_i = U_1 ^ U_2 ^ ... ^ U_c. */
  ghost function T(prf: Bytes -> Bytes, hLen: nat, salt: Bytes, i: nat, c: nat): (r: Bytes)
    requires c >= 1 && FixedLength(prf, hLen)
    ensures |r| == hLen
  {
    if c == 1 then U(prf, salt, i, 1)
    else
      ULength(prf, hLen, salt, i, c);
      Xor(T(prf, hLen, salt, i, c - 1), U(prf, salt, i, c))
  }

  lemma ULength(prf: Bytes -> Bytes, hLen: nat, salt: Bytes, i: nat, c: nat)
    requires c >= 1 && FixedLength(prf, hLen)
    ensures |U(prf, salt, i, c)| == hLen
  {
  }

  /** T_1 || T_2 || ... || T_l. */
  ghost function Blocks(prf: Bytes -> Bytes, hLen: nat, salt: Bytes, c: nat, l: nat): (r: Bytes)
    requires c >= 1 && FixedLength(prf, hLen)
    ensures |r| == l * hLen
  {
    if l == 0 then [] else Blocks(prf, hLen, salt, c, l - 1) + T(prf, hLen, salt, l, c)
  }

  /** How many blocks cover `dkLen` octets: the quotient rounded up. */
  function BlockCount(hLen: nat, dkLen: nat): nat
    requires hLen > 0
  {
    (dkLen + hLen - 1) / hLen
  }

  lemma BlocksCover(hLen: nat, dkLen: nat)
    requires hLen > 0
    ensures dkLen <= BlockCount(hLen, dkLen) * hLen < dkLen + hLen
  {
    var n := dkLen + hLen - 1;
    assert n == (n / hLen) * hLen + n % hLen;
  }

  /** The derived key: the first `dkLen` octets of the blocks. */
  ghost function DerivedKey(prf: Bytes -> Bytes, hLen: nat, salt: Bytes, c: nat, dkLen: nat): (r: Bytes)
    requires c >= 1 && FixedLength(prf, hLen)
    ensures |r| == dkLen
  {
    BlocksCover(hLen, dkLen);
    Blocks(prf, hLen, salt, c, BlockCount(hLen, dkLen))[..dkLen]
  }

  // ---- the code ----

  lemma FirstRound(prf: Bytes -> Bytes, hLen: nat, salt: Bytes, block: nat)
    requires FixedLength(prf, hLen)
    ensures var u := prf(salt + BigEndian(block));
            |u| == hLen && u == U(prf, salt, block, 1) == T(prf, hLen, salt, block, 1)
  {
  }

  lemma NextRound(prf: Bytes -> Bytes, hLen: nat, salt: Bytes, block: nat, i: nat)
    requires FixedLength(prf, hLen) && i >= 1
    ensures var u := prf(U(prf, salt, block, i));
            && |u| == hLen && u == U(prf, salt, block, i + 1)
            && T(prf, hLen, salt, block, i + 1) == Xor(T(prf, hLen, salt, block, i), u)
  {
  }

  /** One block: `t` is XORed in place, round after round. */
  method Block(prf: Bytes -> Bytes, hLen: nat, salt: Bytes, iter: nat, block: nat) returns (t: array<byte>)
    requires FixedLength(prf, hLen) && iter >= 1
    ensures fresh(t) && t[..] == T(prf, hLen, salt, block, iter)
  {
    hide T, U, FixedLength;
    FirstRound(prf, hLen, salt, block);
    var u := prf(salt + BigEndian(block));
    t := new byte[|u|](j requires 0 <= j < |u| => u[j]);
    assert t[..] == u;
    for i := 1 to iter
      invariant u == U(prf, salt, block, i) && |u| == hLen
      invariant t[..] == T(prf, hLen, salt, block, i)
    {
      NextRound(prf, hLen, salt, block, i);
      u := prf(u);
      ghost var before := t[..];
      for j := 0 to t.Length
        invariant forall k :: 0 <= k < j ==> t[k] == Either(before[k], u[k])
        invariant forall k :: j <= k < t.Length ==> t[k] == before[k]
      {
        t[j] := Either(t[j], u[j]);
      }
      assert t[..] == Xor(before, u);
    }
  }

  method DeriveKey(prf: Bytes -> Bytes, hLen: nat, salt: Bytes, iter: nat, keyLen: nat) returns (out: Bytes)
    requires FixedLength(prf, hLen) && iter >= 1
    ensures out == DerivedKey(prf, hLen, salt, iter, keyLen)
  {
    var blocks := (keyLen + hLen - 1) / hLen;
    BlocksCover(hLen, keyLen);
    out := [];
    for block := 1 to blocks + 1
      invariant out == Blocks(prf, hLen, salt, iter, block - 1)
    {
      var t := Block(prf, hLen, salt, iter, block);
      out := out + t[..];
    }
    out := out[..keyLen];
  }

  // ---- consequences ----

  lemma {:induction false} BlocksPrefix(prf: Bytes -> Bytes, hLen: nat, salt: Bytes, c: nat, l: nat, m: nat)
    requires c >= 1 && FixedLength(prf, hLen) && l <= m
    ensures Blocks(prf, hLen, salt, c, l) <= Blocks(prf, hLen, salt, c, m)
    decreases m
  {
    hide FixedLength, T;
    if l < m {
      BlocksPrefix(prf, hLen, salt, c, l, m - 1);
      assert Blocks(prf, hLen, salt, c, m - 1) <= Blocks(prf, hLen, salt, c, m);
    }
  }

  /** A shorter derived key is a prefix of a longer one. */
  lemma ShorterKeyIsPrefix(prf: Bytes -> Bytes, hLen: nat, salt: Bytes, c: nat, short: nat, long: nat)
    requires c >= 1 && FixedLength(prf, hLen) && short <= long
    ensures DerivedKey(prf, hLen, salt, c, short) <= DerivedKey(prf, hLen, salt, c, long)
  {
    BlocksCover(hLen, short);
    BlocksCover(hLen, long);
    CountMonotone(hLen, short, long);
    BlocksPrefix(prf, hLen, salt, c, BlockCount(hLen, short), BlockCount(hLen, long));
  }

  lemma CountMonotone(hLen: nat, short: nat, long: nat)
    requires hLen > 0 && short <= long
    ensures BlockCount(hLen, short) <= BlockCount(hLen, long)
  {
    BlocksCover(hLen, short);
    BlocksCover(hLen, long);
    MoreBlocksCoverMore(hLen, BlockCount(hLen, short), BlockCount(hLen, long));
  }

  lemma MoreBlocksCoverMore(hLen: nat, a: nat, b: nat)
    ensures a > b ==> a * hLen >= (b + 1) * hLen
  {
  }

  lemma WithinBlock(hLen: nat, i: nat, l: nat, j: nat)
    requires 1 <= i <= l && j < hLen
    ensures 0 <= (i - 1) * hLen + j < l * hLen
    ensures i < l ==> (i - 1) * hLen + j < (l - 1) * hLen
  {
    assert (i - 1) * hLen + hLen == i * hLen;
    MoreBlocksCoverMore(hLen, l, i - 1);
    MoreBlocksCoverMore(hLen, l - 1, i - 1);
  }

  /** Octet `j` of block `i` stands at its place in the blocks. */
  lemma {:induction false} OctetOfBlocks(prf: Bytes -> Bytes, hLen: nat, salt: Bytes, c: nat, l: nat, i: nat, j: nat)
    requires c >= 1 && FixedLength(prf, hLen) && 1 <= i <= l && j < hLen
    ensures 0 <= (i - 1) * hLen + j < l * hLen
    ensures Blocks(prf, hLen, salt, c, l)[(i - 1) * hLen + j] == T(prf, hLen, salt, i, c)[j]
    decreases l
  {
    hide FixedLength, T;
    WithinBlock(hLen, i, l, j);
    if i < l {
      OctetOfBlocks(prf, hLen, salt, c, l - 1, i, j);
    }
  }
}
