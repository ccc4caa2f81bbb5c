/**
 The sector cipher, as an inverse pair: for every sector number, decryption undoes encryption
 and the other way round.  Nothing else about XTS-AES is used.
 */
module Cipher {

  type Byte = n: int | 0 <= n < 256

  const SECTOR: nat := 4096

  datatype SectorFns = SectorFns(enc: (seq<Byte>, nat) -> seq<Byte>, dec: (seq<Byte>, nat) -> seq<Byte>)

  // The triggers introduce no new terms; with the default ones the two laws would feed each other.
  ghost predicate InversePair(c: SectorFns) {
    && (forall b: seq<Byte>, n: nat :: |b| == SECTOR ==> |c.enc(b, n)| == SECTOR)
    && (forall b: seq<Byte>, n: nat :: |b| == SECTOR ==> |c.dec(b, n)| == SECTOR)
    && (forall b: seq<Byte>, n: nat {:trigger c.dec(c.enc(b, n), n)} :: |b| == SECTOR ==> c.dec(c.enc(b, n), n) == b)
    && (forall b: seq<Byte>, n: nat {:trigger c.enc(c.dec(b, n), n)} :: |b| == SECTOR ==> c.enc(c.dec(b, n), n) == b)
  }

  type Xts = c: SectorFns | InversePair(c) witness SectorFns((b, n) => b, (b, n) => b)

  /** `n` whole sectors. */
  predicate Sectors(s: seq<Byte>, n: nat) { |s| == n * SECTOR }

  function Sector(s: seq<Byte>, i: nat): seq<Byte>
    requires (i + 1) * SECTOR <= |s|
  {
    s[i * SECTOR..(i + 1) * SECTOR]
  }

  /** Encrypts whole sectors, the first with number `first`. */
  function EncryptArea(c: Xts, s: seq<Byte>, first: nat, n: nat): (r: seq<Byte>)
    requires Sectors(s, n)
    ensures Sectors(r, n)
  {
    if n == 0 then []
    else EncryptArea(c, s[..(n - 1) * SECTOR], first, n - 1) + c.enc(Sector(s, n - 1), first + n - 1)
  }

  function DecryptArea(c: Xts, s: seq<Byte>, first: nat, n: nat): (r: seq<Byte>)
    requires Sectors(s, n)
    ensures Sectors(r, n)
  {
    if n == 0 then []
    else DecryptArea(c, s[..(n - 1) * SECTOR], first, n - 1) + c.dec(Sector(s, n - 1), first + n - 1)
  }

  lemma {:induction false} DecryptUndoesEncrypt(c: Xts, s: seq<Byte>, first: nat, n: nat)
    requires Sectors(s, n)
    ensures DecryptArea(c, EncryptArea(c, s, first, n), first, n) == s
  {
    if n > 0 {
      var m := n - 1;
      var init, last := s[..m * SECTOR], Sector(s, m);
      DecryptUndoesEncrypt(c, init, first, m);
      var ct := EncryptArea(c, s, first, n);
      assert ct[..m * SECTOR] == EncryptArea(c, init, first, m);
      assert Sector(ct, m) == c.enc(last, first + m);
      assert s == init + last;
    }
  }

  /** Areas work sector by sector. */
  lemma {:induction false} EncryptedSector(c: Xts, s: seq<Byte>, first: nat, n: nat, i: nat)
    requires Sectors(s, n) && i < n
    ensures Sector(EncryptArea(c, s, first, n), i) == c.enc(Sector(s, i), first + i)
  {
    var m := n - 1;
    var ct := EncryptArea(c, s, first, n);
    if i < m {
      EncryptedSector(c, s[..m * SECTOR], first, m, i);
      assert Sector(ct, i) == Sector(EncryptArea(c, s[..m * SECTOR], first, m), i);
      assert Sector(s[..m * SECTOR], i) == Sector(s, i);
    } else {
      assert Sector(ct, m) == c.enc(Sector(s, m), first + m);
    }
  }
}
