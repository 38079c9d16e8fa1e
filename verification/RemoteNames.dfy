/**
 The name a print file gets on the printer: a cleaned-up job name and eight hex digits of
 an FNV-1a hash of the package, so that a package changed in one byte gets another name.
 */
module RemoteNames {
  import opened Wrappers
  import opened Arithmetic
  import opened Text

  /** The parts of a print request that naming looks at; an unset string is empty. */
  datatype NameParams = NameParams(projectName: string, taskName: string, ftpFile: string, dstFile: string, filename: string)

  // ----- suffixes and path names -----

  function ToLower(c: char): char {
    if 'A' <= c <= 'Z' then c - 'A' + 'a' else c
  }

  function Lower(s: string): (r: string)
    ensures |r| == |s|
  {
    seq(|s|, i requires 0 <= i < |s| => ToLower(s[i]))
  }

  predicate EndsWithIgnoreCase(value: string, suffix: string) {
    |suffix| <= |value| && Lower(value[|value| - |suffix|..]) == Lower(suffix)
  }

  function Basename(path: string): string {
    if path == "" || path[|path| - 1] == '/' then "" else Basename(path[..|path| - 1]) + [path[|path| - 1]]
  }

  /** The same letter, in either case, or the same other character. */
  predicate SameLetter(a: char, b: char) {
    a == b || ('a' <= a <= 'z' && b as int + 32 == a as int) || ('a' <= b <= 'z' && a as int + 32 == b as int)
  }

  lemma EndsIff(value: string, suffix: string)
    ensures EndsWithIgnoreCase(value, suffix) <==>
            |suffix| <= |value| && forall i | 0 <= i < |suffix| :: SameLetter(value[|value| - |suffix| + i], suffix[i])
  {
    if |suffix| <= |value| {
      var end := value[|value| - |suffix|..];
      assert forall i | 0 <= i < |suffix| :: Lower(end)[i] == Lower(suffix)[i] <==> SameLetter(end[i], suffix[i]);
      if forall i | 0 <= i < |suffix| :: SameLetter(value[|value| - |suffix| + i], suffix[i]) {
        assert forall i | 0 <= i < |suffix| :: end[i] == value[|value| - |suffix| + i];
      } else {
        var i :| 0 <= i < |suffix| && !SameLetter(value[|value| - |suffix| + i], suffix[i]);
        assert Lower(end)[i] != Lower(suffix)[i];
      }
    }
  }

  /** The part of a path behind its last slash. */
  lemma {:induction false} BasenameIs(path: string)
    ensures var name := Basename(path);
            '/' !in name && EndsWith(path, name) && (name != path ==> path[|path| - |name| - 1] == '/')
  {
    if path != "" && path[|path| - 1] != '/' {
      var front, last := path[..|path| - 1], path[|path| - 1];
      BasenameIs(front);
      var base := Basename(front);
      assert Basename(path) == base + [last];
      hide Basename;
      assert path[|path| - |base| - 1..] == front[|front| - |base|..] + [last];
    }
  }

  // ----- the hash -----

  /** `uint32_t`: sums and products wrap around at 2^32. */
  type Word = w: nat | w < TWO_32

  const FNV_OFFSET: Word := 2166136261

  /** Bitwise exclusive or. */
  function Xor(a: nat, b: nat): nat {
    if a == 0 && b == 0 then 0 else (a + b) % 2 + 2 * Xor(a / 2, b / 2)
  }

  lemma XorDigits(a: nat, b: nat)
    ensures Xor(a, b) % 2 == (a + b) % 2 && Xor(a, b) / 2 == Xor(a / 2, b / 2)
  {
    if a != 0 || b != 0 {
      Halves((a + b) % 2, Xor(a / 2, b / 2));
    } else {
      assert Xor(0, 0) == 0;
    }
  }

  lemma {:induction false} XorBits(a: nat, b: nat, k: nat)
    ensures Bit(Xor(a, b), k) <==> Bit(a, k) != Bit(b, k)
  {
    hide Xor;
    XorDigits(a, b);
    if k > 0 {
      XorBits(a / 2, b / 2, k - 1);
    }
  }

  /** A number whose half and parity are those of `a` after two additions of `b` is `a`. */
  lemma SameDigits(x: nat, y: nat, a: nat, b: nat)
    requires y % 2 == (a + b) % 2 && x % 2 == (y + b) % 2 && x / 2 == a / 2
    ensures x == a
  {
  }

  lemma Halves(bit: nat, rest: nat)
    requires bit < 2
    ensures (bit + 2 * rest) % 2 == bit && (bit + 2 * rest) / 2 == rest
  {
  }

  lemma {:induction false} XorTwice(a: nat, b: nat)
    ensures Xor(Xor(a, b), b) == a
  {
    if a != 0 || b != 0 {
      hide Xor;
      XorTwice(a / 2, b / 2);
      XorDigits(a, b);
      XorDigits(Xor(a, b), b);
      SameDigits(Xor(Xor(a, b), b), Xor(a, b), a, b);
    } else {
      assert Xor(0, 0) == 0;
    }
  }

  lemma {:induction false} XorSwap(a: nat, b: nat)
    ensures Xor(a, b) == Xor(b, a)
  {
    if a != 0 || b != 0 {
      XorSwap(a / 2, b / 2);
    }
  }

  lemma {:induction false} XorBound(a: nat, b: nat, k: nat)
    requires a < Power2(k) && b < Power2(k)
    ensures Xor(a, b) < Power2(k)
    decreases k
  {
    if a != 0 || b != 0 {
      XorBound(a / 2, b / 2, k - 1);
    }
  }

  /** One byte of FNV-1a. */
  function FnvStep(hash: Word, b: Byte): Word {
    (Xor(hash, b) * 16777619) % TWO_32
  }

  /** FNV-1a over `bytes`, starting from the state `hash` (section 2 of draft-eastlake-fnv). */
  function Fnv(hash: Word, bytes: seq<Byte>): Word
    decreases |bytes|
  {
    if bytes == [] then hash else Fnv(FnvStep(hash, bytes[0]), bytes[1..])
  }

  /** The FNV prime has the inverse 899433627 modulo 2^32. */
  lemma PrimeInverts(n: Word)
    ensures (n * 16777619) % TWO_32 * 899433627 % TWO_32 == n
  {
    var k, r := (n * 16777619) / TWO_32, (n * 16777619) % TWO_32;
    assert n * 16777619 == k * TWO_32 + r;
    Remainder(r * 899433627, 3513497 * n - k * 899433627, n);
  }

  lemma Remainder(x: nat, q: int, r: Word)
    requires x == q * TWO_32 + r
    ensures x % TWO_32 == r
  {
  }

  lemma XorWord(hash: Word, b: Byte)
    ensures Xor(hash, b) < TWO_32
  {
    PowerWords();
    XorBound(hash, b, 32);
  }

  lemma StepUnmixes(hash: Word, b: Byte)
    ensures FnvStep(hash, b) * 899433627 % TWO_32 == Xor(hash, b)
  {
    XorWord(hash, b);
    PrimeInverts(Xor(hash, b));
  }

  /** With the same byte, different states stay different. */
  lemma StepInjective(g: Word, h: Word, b: Byte)
    ensures FnvStep(g, b) == FnvStep(h, b) ==> g == h
  {
    hide FnvStep, Xor;
    StepUnmixes(g, b);
    StepUnmixes(h, b);
    XorTwice(g, b);
    XorTwice(h, b);
  }

  /** From the same state, different bytes lead to different states. */
  lemma StepSeparates(h: Word, b: Byte, c: Byte)
    ensures FnvStep(h, b) == FnvStep(h, c) ==> b == c
  {
    hide FnvStep, Xor;
    StepUnmixes(h, b);
    StepUnmixes(h, c);
    XorSwap(h, b);
    XorSwap(h, c);
    XorTwice(b, h);
    XorTwice(c, h);
  }

  lemma {:induction false} FnvConcat(hash: Word, a: seq<Byte>, b: seq<Byte>)
    ensures Fnv(hash, a + b) == Fnv(Fnv(hash, a), b)
    decreases |a|
  {
    if a == [] {
      assert a + b == b;
    } else {
      assert (a + b)[1..] == a[1..] + b;
      FnvConcat(FnvStep(hash, a[0]), a[1..], b);
    }
  }

  lemma FnvSnoc(hash: Word, bytes: seq<Byte>, b: Byte)
    ensures Fnv(hash, bytes + [b]) == FnvStep(Fnv(hash, bytes), b)
  {
    FnvConcat(hash, bytes, [b]);
    assert [b][1..] == [];
  }

  lemma {:induction false} FnvInjective(g: Word, h: Word, bytes: seq<Byte>)
    requires Fnv(g, bytes) == Fnv(h, bytes)
    ensures g == h
    decreases |bytes|
  {
    if bytes != [] {
      FnvInjective(FnvStep(g, bytes[0]), FnvStep(h, bytes[0]), bytes[1..]);
      StepInjective(g, h, bytes[0]);
    }
  }

  /** Contents that differ in one byte hash differently. */
  lemma OneByteShows(front: seq<Byte>, x: Byte, y: Byte, back: seq<Byte>)
    ensures Fnv(FNV_OFFSET, front + [x] + back) == Fnv(FNV_OFFSET, front + [y] + back) <==> x == y
  {
    if Fnv(FNV_OFFSET, front + [x] + back) == Fnv(FNV_OFFSET, front + [y] + back) {
      var h := Fnv(FNV_OFFSET, front);
      FnvConcat(FNV_OFFSET, front + [x], back);
      FnvConcat(FNV_OFFSET, front + [y], back);
      FnvConcat(FNV_OFFSET, front, [x]);
      FnvConcat(FNV_OFFSET, front, [y]);
      FnvInjective(Fnv(h, [x]), Fnv(h, [y]), back);
      assert [x][1..] == [] && [y][1..] == [];
      StepSeparates(h, x, y);
    }
  }

  // ----- fixed-width hexadecimal -----

  function ToHex(n: nat): (s: string)
    ensures s != ""
  {
    if n < 16 then [HexDigit(n)] else ToHex(n / 16) + [HexDigit(n % 16)]
  }

  function Zeros(n: nat): (s: string)
    ensures |s| == n
  {
    if n == 0 then "" else Zeros(n - 1) + "0"
  }

  /** `std::hex` with a field of eight filled with zeros. */
  function Hex8(hash: Word): string {
    var digits := ToHex(hash);
    if |digits| < 8 then Zeros(8 - |digits|) + digits else digits
  }

  predicate IsHexDigit(c: char) {
    '0' <= c <= '9' || 'a' <= c <= 'f'
  }

  predicate HexDigits(s: string) {
    forall i | 0 <= i < |s| :: IsHexDigit(s[i])
  }

  function HexValue(s: string): nat
    requires HexDigits(s)
  {
    if s == "" then 0 else HexValue(s[..|s| - 1]) * 16 + HexDigitValue(s[|s| - 1])
  }

  lemma HexDigitOf(d: nat)
    requires d < 16
    ensures IsHexDigit(HexDigit(d)) && HexDigitValue(HexDigit(d)) == d
  {
  }

  lemma {:induction false} ToHexValue(n: nat)
    ensures HexDigits(ToHex(n)) && HexValue(ToHex(n)) == n
  {
    HexDigitOf(n % 16);
    if 16 <= n {
      ToHexValue(n / 16);
      var front := ToHex(n / 16);
      assert (front + [HexDigit(n % 16)])[..|front|] == front;
    } else {
      assert [HexDigit(n)][..0] == "";
    }
  }

  lemma {:induction false} ToHexLength(n: nat, k: nat)
    requires 1 <= k && n < Power16(k)
    ensures |ToHex(n)| <= k
    decreases k
  {
    if 16 <= n {
      ToHexLength(n / 16, k - 1);
    }
  }

  function Power16(k: nat): nat {
    if k == 0 then 1 else 16 * Power16(k - 1)
  }

  lemma HexSnoc(s: string, c: char)
    requires HexDigits(s) && IsHexDigit(c)
    ensures HexDigits(s + [c]) && HexValue(s + [c]) == HexValue(s) * 16 + HexDigitValue(c)
  {
    assert (s + [c])[..|s|] == s;
  }

  lemma {:induction false} ZerosValue(k: nat)
    ensures HexDigits(Zeros(k)) && HexValue(Zeros(k)) == 0
  {
    if k != 0 {
      ZerosValue(k - 1);
      HexSnoc(Zeros(k - 1), '0');
    }
  }

  lemma {:induction false} ZerosPad(k: nat, s: string)
    requires HexDigits(s)
    ensures HexDigits(Zeros(k) + s) && HexValue(Zeros(k) + s) == HexValue(s)
  {
    assert HexValue("") == 0;
    hide HexValue, Zeros;
    if s == "" {
      ZerosValue(k);
      assert Zeros(k) + "" == Zeros(k);
    } else {
      var front, last := s[..|s| - 1], s[|s| - 1];
      assert s == front + [last];
      ZerosPad(k, front);
      HexSnoc(front, last);
      HexSnoc(Zeros(k) + front, last);
      assert Zeros(k) + s == Zeros(k) + front + [last];
    }
  }

  /** Eight hex digits, from which the hash can be read back. */
  lemma Hex8Value(hash: Word)
    ensures |Hex8(hash)| == 8 && HexDigits(Hex8(hash)) && HexValue(Hex8(hash)) == hash
  {
    hide ToHex, Power16, HexValue;
    Power16Of8();
    ToHexLength(hash, 8);
    PadValue(hash);
  }

  lemma Power16Of8()
    ensures Power16(8) == TWO_32
  {
    assert Power16(4) == 65536;
  }

  lemma PadValue(n: nat)
    requires |ToHex(n)| <= 8
    ensures var digits := ToHex(n);
            var s := if |digits| < 8 then Zeros(8 - |digits|) + digits else digits;
            |s| == 8 && HexDigits(s) && HexValue(s) == n
  {
    hide ToHex, Zeros, HexValue;
    ToHexValue(n);
    ZerosPad(8 - |ToHex(n)|, ToHex(n));
  }

  lemma Hex8Injective(g: Word, h: Word)
    requires Hex8(g) == Hex8(h)
    ensures g == h
  {
    Hex8Value(g);
    Hex8Value(h);
  }

  // ----- published values -----

  lemma XorBit(a: nat, p: nat, b: nat, q: nat)
    requires p < 2 && q < 2
    ensures Xor(2 * a + p, 2 * b + q) == 2 * Xor(a, b) + if p == q then 0 else 1
  {
    hide Xor;
    var x, y := 2 * a + p, 2 * b + q;
    Halves(p, a);
    Halves(q, b);
    Halves(if p == q then 0 else 1, a + b + if p == q then p else 0);
    XorDigits(x, y);
    assert x + y == (if p == q then 0 else 1) + 2 * (a + b + if p == q then p else 0);
  }

  lemma {:induction false} XorNothing(n: nat)
    ensures Xor(n, 0) == n
  {
    if n != 0 {
      XorNothing(n / 2);
    }
  }

  /** Four bits at a time: the low digits of two numbers, bit by bit. */
  lemma XorDigit(a: nat, p3: nat, p2: nat, p1: nat, p0: nat, b: nat, q3: nat, q2: nat, q1: nat, q0: nat)
    requires p3 < 2 && p2 < 2 && p1 < 2 && p0 < 2 && q3 < 2 && q2 < 2 && q1 < 2 && q0 < 2
    ensures Xor(16 * a + 8 * p3 + 4 * p2 + 2 * p1 + p0, 16 * b + 8 * q3 + 4 * q2 + 2 * q1 + q0) ==
            16 * Xor(a, b) + (if p3 == q3 then 0 else 8) + (if p2 == q2 then 0 else 4) + (if p1 == q1 then 0 else 2) +
            if p0 == q0 then 0 else 1
  {
    hide Xor;
    XorBit(a, p3, b, q3);
    XorBit(2 * a + p3, p2, 2 * b + q3, q2);
    XorBit(4 * a + 2 * p3 + p2, p1, 4 * b + 2 * q3 + q2, q1);
    XorBit(8 * a + 4 * p3 + 2 * p2 + p1, p0, 8 * b + 4 * q3 + 2 * q2 + q1, q0);
  }

  /** FNV-1a of nothing, of `a` and of `fo`, as published. */
  lemma PublishedValues()
    ensures Fnv(FNV_OFFSET, []) == 0x811c9dc5
    ensures Fnv(FNV_OFFSET, [0x61]) == 0xe40c292c
    ensures Fnv(FNV_OFFSET, [0x66, 0x6f]) == 0x6222e842
  {
    hide Xor, FnvStep;
    assert [0x61 as Byte][1..] == [] && [0x66 as Byte, 0x6f][1..] == [0x6f] && [0x6f as Byte][1..] == [];
    StepOfA();
    StepsOfFo();
  }

  lemma StepOfA()
    ensures FnvStep(0x811c9dc5, 0x61) == 0xe40c292c
  {
    hide Xor;
    XorNothing(0x811c9d);
    XorDigit(0x811c9d, 1, 1, 0, 0, 0, 0, 1, 1, 0);
    XorDigit(0x811c9dc, 0, 1, 0, 1, 6, 0, 0, 0, 1);
  }

  lemma StepsOfFo()
    ensures FnvStep(0x811c9dc5, 0x66) == 0xe30c2799 && FnvStep(0xe30c2799, 0x6f) == 0x6222e842
  {
    hide Xor;
    XorNothing(0x811c9d);
    XorDigit(0x811c9d, 1, 1, 0, 0, 0, 0, 1, 1, 0);
    XorDigit(0x811c9dc, 0, 1, 0, 1, 6, 0, 1, 1, 0);
    XorNothing(0xe30c27);
    XorDigit(0xe30c27, 1, 0, 0, 1, 0, 0, 1, 1, 0);
    XorDigit(0xe30c279, 1, 0, 0, 1, 6, 1, 1, 1, 1);
  }

  lemma HexMore(n: nat, d: nat)
    requires n != 0 && d < 16
    ensures ToHex(16 * n + d) == ToHex(n) + [HexDigit(d)]
  {
  }

  lemma HexPairs(n: nat, d: nat, e: nat)
    requires n != 0 && d < 16 && e < 16
    ensures ToHex(256 * n + 16 * d + e) == ToHex(n) + [HexDigit(d), HexDigit(e)]
  {
    hide ToHex, HexDigit;
    HexMore(n, d);
    HexMore(16 * n + d, e);
  }

  /** Digits are written from the highest, in lower case, with zeros in front. */
  lemma HexWritten()
    ensures Hex8(0x0c29ae4f) == "0c29ae4f"
  {
    hide ToHex;
    LowestHex(0xc);
    HexPairs(0xc, 0x2, 0x9);
    HexPairs(0xc29, 0xa, 0xe);
    HexPairs(0xc29ae, 0x4, 0xf);
    assert Zeros(1) == "0";
  }

  lemma LowestHex(d: nat)
    requires d < 16
    ensures ToHex(d) == [HexDigit(d)]
  {
  }

  // ----- the two suffixes -----

  const READ_SIZE: nat := 8192

  /** The suffix for a package whose contents could be read. */
  function ContentSuffix(contents: seq<Byte>): string {
    Hex8(Fnv(FNV_OFFSET, contents))
  }

  /**
   Hashing a file in blocks, as the code reads it: a block shorter than the buffer ends the
   loop.  `file` is None when the path cannot be opened.
   */
  method ShortContentSuffix(path: string, file: Option<seq<Byte>>) returns (suffix: string)
    ensures suffix == if path == "" || file.None? then "" else ContentSuffix(file.value)
  {
    if path == "" || file.None? {
      return "";
    }
    hide Xor;
    var contents := file.value;
    var hash: Word := FNV_OFFSET;
    var position, good := 0, true;
    while good
      invariant position <= |contents|
      invariant hash == Fnv(FNV_OFFSET, contents[..position])
      invariant !good ==> position == |contents|
      decreases |contents| - position, good
    {
      var bytesRead := if |contents| - position < READ_SIZE then |contents| - position else READ_SIZE;
      var buffer := contents[position..position + bytesRead];
      for i := 0 to bytesRead
        invariant hash == Fnv(FNV_OFFSET, contents[..position + i])
      {
        var before := contents[..position + i];
        assert contents[..position + i + 1] == before + [buffer[i]];
        FnvSnoc(FNV_OFFSET, before, buffer[i]);
        hash := (Xor(hash, buffer[i]) * 16777619) % TWO_32;
      }
      good := bytesRead == READ_SIZE;
      position := position + bytesRead;
    }
    assert contents[..position] == contents;
    suffix := Hex8(hash);
  }

  /** A path as bytes: a character stands for the byte with its code. */
  function PathBytes(path: string): (bytes: seq<Byte>)
    ensures |bytes| == |path|
  {
    seq(|path|, i requires 0 <= i < |path| => path[i] as int % 256)
  }

  /** The bytes of a path are its characters. */
  lemma PathBytesAre(path: string, i: nat)
    requires i < |path| && path[i] as int < 256
    ensures PathBytes(path)[i] as char == path[i]
  {
  }

  function PathSuffix(path: string): string {
    if path == "" then "" else Hex8(Fnv(FNV_OFFSET, PathBytes(path)))
  }

  method ShortPathSuffix(path: string) returns (suffix: string)
    ensures suffix == PathSuffix(path)
  {
    if path == "" {
      return "";
    }
    hide Xor;
    var bytes := PathBytes(path);
    var hash: Word := FNV_OFFSET;
    for i := 0 to |bytes|
      invariant hash == Fnv(FNV_OFFSET, bytes[..i])
    {
      assert bytes[..i + 1] == bytes[..i] + [bytes[i]];
      FnvSnoc(FNV_OFFSET, bytes[..i], bytes[i]);
      hash := (Xor(hash, bytes[i]) * 16777619) % TWO_32;
    }
    assert bytes[..|bytes|] == bytes;
    suffix := Hex8(hash);
  }

  function PackageSuffix(path: string, file: Option<seq<Byte>>): string {
    if path != "" && file.Some? then ContentSuffix(file.value) else PathSuffix(path)
  }

  lemma PackageSuffixHex(path: string, file: Option<seq<Byte>>)
    ensures PackageSuffix(path, file) == "" || (|PackageSuffix(path, file)| == 8 && HexDigits(PackageSuffix(path, file)))
  {
    if file.Some? {
      Hex8Value(Fnv(FNV_OFFSET, file.value));
    }
    Hex8Value(Fnv(FNV_OFFSET, PathBytes(path)));
  }

  // ----- cleaning names -----

  predicate Reserved(c: char) {
    c in "/\\:*?\"<>|"
  }

  function Blank(c: char): char {
    if Reserved(c) then '_' else c
  }

  function BlankReserved(s: string): (r: string)
    ensures |r| == |s| && forall i | 0 <= i < |s| :: r[i] == Blank(s[i])
  {
    seq(|s|, i requires 0 <= i < |s| => Blank(s[i]))
  }

  function DropFront(s: string): string {
    if s != "" && s[0] in ". " then DropFront(s[1..]) else s
  }

  function DropBack(s: string): string {
    if s != "" && s[|s| - 1] == ' ' then DropBack(s[..|s| - 1]) else s
  }

  const DEFAULT_NAME := "print.gcode.3mf"

  function Sanitize(value: string): string {
    var kept := DropBack(DropFront(BlankReserved(value)));
    if kept == "" then DEFAULT_NAME else kept
  }

  method SanitizeRemoteFilename(value: string) returns (r: string)
    ensures r == Sanitize(value)
  {
    var chars := new char[|value|](i requires 0 <= i < |value| => value[i]);
    for i := 0 to chars.Length
      invariant forall j | 0 <= j < i :: chars[j] == Blank(value[j])
      invariant forall j | i <= j < chars.Length :: chars[j] == value[j]
    {
      match chars[i]
      case '/' => chars[i] := '_';
      case '\\' => chars[i] := '_';
      case ':' => chars[i] := '_';
      case '*' => chars[i] := '_';
      case '?' => chars[i] := '_';
      case '"' => chars[i] := '_';
      case '<' => chars[i] := '_';
      case '>' => chars[i] := '_';
      case '|' => chars[i] := '_';
      case _ =>
    }
    r := chars[..];
    assert r == BlankReserved(value);
    while r != "" && (r[0] == '.' || r[0] == ' ')
      invariant DropFront(r) == DropFront(BlankReserved(value))
      decreases |r|
    {
      r := r[1..];
    }
    while r != "" && r[|r| - 1] == ' '
      invariant DropBack(r) == DropBack(DropFront(BlankReserved(value)))
      decreases |r|
    {
      r := r[..|r| - 1];
    }
    if r == "" {
      r := DEFAULT_NAME;
    }
  }

  lemma {:induction false} FrontDropped(s: string) returns (i: nat)
    ensures i <= |s| && DropFront(s) == s[i..] && (i < |s| ==> s[i] !in ". ")
    ensures forall k | 0 <= k < i :: s[k] in ". "
  {
    i := 0;
    while i < |s| && s[i] in ". "
      invariant i <= |s| && DropFront(s) == DropFront(s[i..])
      invariant forall k | 0 <= k < i :: s[k] in ". "
    {
      assert s[i..][1..] == s[i + 1..];
      i := i + 1;
    }
  }

  lemma {:induction false} BackDropped(s: string) returns (j: nat)
    ensures j <= |s| && DropBack(s) == s[..j] && (0 < j ==> s[j - 1] != ' ')
    ensures forall k | j <= k < |s| :: s[k] == ' '
  {
    j := |s|;
    assert s[..j] == s;
    while 0 < j && s[j - 1] == ' '
      invariant j <= |s| && DropBack(s) == DropBack(s[..j])
      invariant forall k | j <= k < |s| :: s[k] == ' '
    {
      assert s[..j][..j - 1] == s[..j - 1];
      j := j - 1;
    }
  }

  /**
   Which part of a name is kept: all but the dots and blanks in front and the blanks behind, with an
   underscore for each reserved character.  A name with no other part becomes the default name.
   */
  lemma SanitizeKeeps(value: string) returns (i: nat, j: nat)
    ensures i <= j <= |value|
    ensures (forall k | 0 <= k < i :: value[k] in ". ") && (forall k | j <= k < |value| :: value[k] == ' ')
    ensures i == j ==> Sanitize(value) == "print.gcode.3mf"
    ensures i < j ==> value[i] !in ". " && value[j - 1] != ' ' && |Sanitize(value)| == j - i
    ensures i < j ==>
              forall k | 0 <= k < j - i :: Sanitize(value)[k] == if value[i + k] in "/\\:*?\"<>|" then '_' else value[i + k]
  {
    hide DropFront, DropBack;
    var blanked := BlankReserved(value);
    assert forall k | 0 <= k < |value| :: (blanked[k] in ". " <==> value[k] in ". ") && (blanked[k] == ' ' <==> value[k] == ' ');
    i := FrontDropped(blanked);
    var n := BackDropped(blanked[i..]);
    j := i + n;
    assert forall k | j <= k < |value| :: blanked[k] == blanked[i..][k - i];
    assert blanked[i..][..n] == blanked[i..j];
  }

  predicate NoneReserved(s: string) {
    forall i | 0 <= i < |s| :: !Reserved(s[i])
  }

  /** A name the printer's file system takes: not hidden, no reserved character, no blank edge. */
  predicate CleanName(s: string) {
    s != "" && s[0] !in ". " && s[|s| - 1] != ' ' && NoneReserved(s)
  }

  lemma {:induction false} DropFrontKeeps(s: string)
    requires NoneReserved(s)
    ensures var r := DropFront(s);
            NoneReserved(r) && (r != "" ==> r[0] !in ". ") && (s == "" || s[0] !in ". " ==> r == s)
  {
    if s != "" && s[0] in ". " {
      DropFrontKeeps(s[1..]);
    }
  }

  lemma {:induction false} DropBackKeeps(s: string)
    requires NoneReserved(s)
    ensures var r := DropBack(s);
            NoneReserved(r) && (r != "" ==> r[0] == s[0] && r[|r| - 1] != ' ') && |r| <= |s| &&
            (s == "" || s[|s| - 1] != ' ' ==> r == s)
  {
    if s != "" && s[|s| - 1] == ' ' {
      DropBackKeeps(s[..|s| - 1]);
    }
  }

  lemma DropsKeep(b: string)
    requires NoneReserved(b)
    ensures DropBack(DropFront(b)) == "" || CleanName(DropBack(DropFront(b)))
    ensures CleanName(b) ==> DropBack(DropFront(b)) == b
  {
    hide NoneReserved, DropFront, DropBack;
    DropFrontKeeps(b);
    DropBackKeeps(DropFront(b));
  }

  /** Sanitizing gives a clean name, and leaves exactly the clean names alone. */
  lemma SanitizeCleans(value: string)
    ensures CleanName(Sanitize(value))
    ensures Sanitize(value) == value <==> CleanName(value)
  {
    assert CleanName(DEFAULT_NAME);
    var b := BlankReserved(value);
    DropsKeep(b);
    if CleanName(value) {
      assert b == value;
    }
  }

  lemma SanitizeIdempotent(value: string)
    ensures Sanitize(Sanitize(value)) == Sanitize(value)
  {
    SanitizeCleans(value);
    SanitizeCleans(Sanitize(value));
  }

  const GCODE_3MF := ".gcode.3mf"
  const DOT_3MF := ".3mf"

  function Normalize(value: string): string {
    var name := Sanitize(value);
    if EndsWithIgnoreCase(name, GCODE_3MF) then name
    else if EndsWithIgnoreCase(name, DOT_3MF) then name[..|name| - 4] + GCODE_3MF
    else name + GCODE_3MF
  }

  /** A clean name made of a non-empty stem and the package ending. */
  predicate PackageName(s: string) {
    CleanName(s) && EndsWithIgnoreCase(s, GCODE_3MF) && |s| > |GCODE_3MF|
  }

  /** The ending is made `.gcode.3mf`, whatever the case of the one there, and nothing else changes. */
  lemma NormalizeIs(value: string)
    ensures var name := Sanitize(value);
            && (EndsWithIgnoreCase(name, ".gcode.3mf") ==> Normalize(value) == name)
            && (EndsWithIgnoreCase(name, ".3mf") && !EndsWithIgnoreCase(name, ".gcode.3mf") ==>
                  Normalize(value) == name[..|name| - 4] + ".gcode.3mf")
            && (!EndsWithIgnoreCase(name, ".3mf") ==> Normalize(value) == name + ".gcode.3mf")
  {
    hide Sanitize, EndsWithIgnoreCase;
    if EndsWithIgnoreCase(Sanitize(value), GCODE_3MF) {
      LongerEnding(Sanitize(value));
    }
  }

  lemma LongerEnding(name: string)
    requires EndsWithIgnoreCase(name, GCODE_3MF)
    ensures EndsWithIgnoreCase(name, DOT_3MF)
  {
    EndsIff(name, GCODE_3MF);
    EndsIff(name, DOT_3MF);
    assert forall i | 0 <= i < 4 :: DOT_3MF[i] == GCODE_3MF[6 + i];
  }

  lemma EndsWithSelf(stem: string, suffix: string)
    ensures EndsWithIgnoreCase(stem + suffix, suffix)
  {
    assert (stem + suffix)[|stem|..] == suffix;
  }

  lemma CleanStem(name: string, n: nat)
    requires CleanName(name) && 0 < n <= |name|
    ensures CleanName(name[..n] + GCODE_3MF)
  {
    var r := name[..n] + GCODE_3MF;
    assert forall i | 0 <= i < |GCODE_3MF| :: !Reserved(GCODE_3MF[i]);
    assert r[|r| - 1] == 'f';
  }

  /** A clean name is more than a bare extension. */
  lemma LongerThanSuffix(name: string, suffix: string)
    requires CleanName(name) && EndsWithIgnoreCase(name, suffix) && suffix in [GCODE_3MF, DOT_3MF]
    ensures |name| > |suffix|
  {
    assert Lower(name[|name| - |suffix|..])[0] == Lower(suffix)[0] == '.';
    assert name[|name| - |suffix|..][0] == name[|name| - |suffix|];
  }

  /** Normalizing gives a package name, and leaves exactly the package names alone. */
  lemma NormalizePackages(value: string)
    ensures PackageName(Normalize(value))
    ensures Normalize(value) == value <==> PackageName(value)
  {
    var name := Sanitize(value);
    SanitizeCleans(value);
    assert name != "";
    hide Sanitize, CleanName, EndsWithIgnoreCase;
    if EndsWithIgnoreCase(name, GCODE_3MF) {
      LongerThanSuffix(name, GCODE_3MF);
    } else if EndsWithIgnoreCase(name, DOT_3MF) {
      LongerThanSuffix(name, DOT_3MF);
      CleanStem(name, |name| - 4);
      EndsWithSelf(name[..|name| - 4], GCODE_3MF);
    } else {
      CleanStem(name, |name|);
      assert name[..|name|] == name;
      EndsWithSelf(name, GCODE_3MF);
    }
  }

  lemma NormalizeIdempotent(value: string)
    ensures Normalize(Normalize(value)) == Normalize(value)
  {
    NormalizePackages(value);
    NormalizePackages(Normalize(value));
  }

  function AppendPackageSuffix(baseName: string, suffix: string): string {
    if suffix == "" then baseName
    else if EndsWithIgnoreCase(baseName, GCODE_3MF) then baseName[..|baseName| - 10] + "-" + suffix + GCODE_3MF
    else if EndsWithIgnoreCase(baseName, DOT_3MF) then baseName[..|baseName| - 4] + "-" + suffix + DOT_3MF
    else baseName + "-" + suffix
  }

  function Is3mf(params: NameParams): bool {
    EndsWithIgnoreCase(Basename(params.filename), DOT_3MF) || EndsWithIgnoreCase(params.filename, DOT_3MF)
  }

  /** `file` holds the bytes at `params.filename`, None when it cannot be opened. */
  function ResolveRemoteFilename(params: NameParams, file: Option<seq<Byte>>): string {
    var sourceName := Basename(params.filename);
    var suffix := PackageSuffix(params.filename, file);
    if Is3mf(params) && params.projectName != "" then AppendPackageSuffix(Normalize(params.projectName), suffix)
    else if Is3mf(params) && params.taskName != "" then AppendPackageSuffix(Normalize(params.taskName), suffix)
    else if params.ftpFile != "" then Sanitize(Basename(params.ftpFile))
    else if params.dstFile != "" then Sanitize(Basename(params.dstFile))
    else if params.taskName != "" then Sanitize(params.taskName)
    else if params.filename != "" then
      if Is3mf(params) then AppendPackageSuffix(Normalize(sourceName), suffix) else Sanitize(sourceName)
    else DEFAULT_NAME
  }

  lemma SuffixKeepsClean(name: string, suffix: string)
    requires PackageName(name) && (suffix == "" || (|suffix| == 8 && HexDigits(suffix)))
    ensures CleanName(AppendPackageSuffix(name, suffix))
  {
    if suffix != "" {
      var stem := name[..|name| - 10];
      var marked := stem + "-" + suffix;
      assert forall i | 0 <= i < |suffix| :: !Reserved(suffix[i]) && suffix[i] != ' ';
      assert marked[|marked| - 1] == suffix[7];
      CleanStem(marked, |marked|);
      assert marked[..|marked|] == marked;
    }
  }

  /** Every name the client gives a remote file is clean. */
  lemma ResolvedNamesClean(params: NameParams, file: Option<seq<Byte>>)
    ensures CleanName(ResolveRemoteFilename(params, file))
  {
    hide Sanitize, Normalize, PackageSuffix, AppendPackageSuffix, PackageName, Is3mf, HexDigits;
    var suffix := PackageSuffix(params.filename, file);
    var sourceName := Basename(params.filename);
    PackageSuffixHex(params.filename, file);
    SanitizeCleans(Basename(params.ftpFile));
    SanitizeCleans(Basename(params.dstFile));
    SanitizeCleans(params.taskName);
    SanitizeCleans(sourceName);
    NormalizePackages(params.projectName);
    NormalizePackages(params.taskName);
    NormalizePackages(sourceName);
    SuffixKeepsClean(Normalize(params.projectName), suffix);
    SuffixKeepsClean(Normalize(params.taskName), suffix);
    SuffixKeepsClean(Normalize(sourceName), suffix);
  }

  lemma SpliceInjective(name: string, s: string, t: string)
    requires PackageName(name) && |s| == |t| == 8
    ensures AppendPackageSuffix(name, s) == AppendPackageSuffix(name, t) ==> s == t
  {
    var stem := name[..|name| - 10] + "-";
    var a, b := stem + s + GCODE_3MF, stem + t + GCODE_3MF;
    assert a[|stem|..|stem| + 8] == s && b[|stem|..|stem| + 8] == t;
  }

  lemma PackageFile(params: NameParams)
    ensures Is3mf(params) <==> EndsWithIgnoreCase(params.filename, ".3mf")
  {
    var path, name := params.filename, Basename(params.filename);
    BasenameIs(path);
    EndsIff(path, DOT_3MF);
    EndsIff(name, DOT_3MF);
    if |name| >= 4 {
      assert forall i | 0 <= i < |name| :: path[|path| - |name| + i] == name[i];
    } else if EndsWithIgnoreCase(path, DOT_3MF) {
      assert path[|path| - |name| - 1] == '/' && SameLetter('/', DOT_3MF[3 - |name|]);
    }
  }

  /** A package name with the hash of its file before the ending. */
  lemma Spliced(name: string, params: NameParams, file: Option<seq<Byte>>)
    requires PackageName(name) && params.filename != ""
    ensures AppendPackageSuffix(name, PackageSuffix(params.filename, file)) ==
            name[..|name| - 10] + "-" +
            Hex8(Fnv(FNV_OFFSET, if file.Some? then file.value else PathBytes(params.filename))) + ".gcode.3mf"
  {
    hide Hex8, Fnv;
    Hex8Value(Fnv(FNV_OFFSET, if file.Some? then file.value else PathBytes(params.filename)));
  }

  /**
   A package is named after its project, or else its task, with the hash of its contents, or of its path
   if they cannot be read, before the ending.
   */
  lemma ResolvedPackage(params: NameParams, file: Option<seq<Byte>>)
    requires EndsWithIgnoreCase(params.filename, ".3mf") && (params.projectName != "" || params.taskName != "")
    ensures var name := Normalize(if params.projectName != "" then params.projectName else params.taskName);
            && PackageName(name)
            && ResolveRemoteFilename(params, file) ==
               name[..|name| - 10] + "-" + Hex8(Fnv(FNV_OFFSET, if file.Some? then file.value else PathBytes(params.filename))) +
               ".gcode.3mf"
  {
    hide Sanitize, Normalize, PackageSuffix, AppendPackageSuffix, Hex8, Fnv, EndsWithIgnoreCase, Is3mf;
    PackageFile(params);
    EndsIff(params.filename, ".3mf");
    var job := if params.projectName != "" then params.projectName else params.taskName;
    NormalizePackages(job);
    Spliced(Normalize(job), params, file);
  }

  /**
   Any other file, and a package without those names, is named after the first of FTP file, destination
   and task name that is given, and else after the file itself, hashed when it is a package.
   */
  lemma ResolvedOther(params: NameParams, file: Option<seq<Byte>>)
    requires !EndsWithIgnoreCase(params.filename, ".3mf") || params.projectName == params.taskName == ""
    ensures var resolved := ResolveRemoteFilename(params, file);
            if params.ftpFile != "" then resolved == Sanitize(Basename(params.ftpFile))
            else if params.dstFile != "" then resolved == Sanitize(Basename(params.dstFile))
            else if params.taskName != "" then resolved == Sanitize(params.taskName)
            else if params.filename == "" then resolved == "print.gcode.3mf"
            else if !EndsWithIgnoreCase(params.filename, ".3mf") then resolved == Sanitize(Basename(params.filename))
            else
              var name := Normalize(Basename(params.filename));
              && PackageName(name)
              && resolved == name[..|name| - 10] + "-" +
                             Hex8(Fnv(FNV_OFFSET, if file.Some? then file.value else PathBytes(params.filename))) + ".gcode.3mf"
  {
    hide Sanitize, Normalize, PackageSuffix, AppendPackageSuffix, Hex8, Fnv, EndsWithIgnoreCase, Is3mf;
    PackageFile(params);
    NormalizePackages(Basename(params.filename));
    if params.filename != "" {
      Spliced(Normalize(Basename(params.filename)), params, file);
    }
  }

  /** The request names a job, and its file is a package that could be opened. */
  predicate NamedPackage(params: NameParams, file: Option<seq<Byte>>) {
    Is3mf(params) && params.filename != "" && file.Some? && (params.projectName != "" || params.taskName != "")
  }

  /**
   Two readable packages of the same job, wherever they lie, get the same remote name exactly
   when their contents have the same hash.
   */
  lemma SameNameIff(p: NameParams, f: Option<seq<Byte>>, q: NameParams, g: Option<seq<Byte>>)
    requires NamedPackage(p, f) && NamedPackage(q, g)
    requires p.projectName == q.projectName && p.taskName == q.taskName
    ensures ResolveRemoteFilename(p, f) == ResolveRemoteFilename(q, g) <==>
            Fnv(FNV_OFFSET, f.value) == Fnv(FNV_OFFSET, g.value)
  {
    hide Normalize, AppendPackageSuffix, PackageName, Is3mf, HexDigits, Hex8, Fnv;
    var x, y := Fnv(FNV_OFFSET, f.value), Fnv(FNV_OFFSET, g.value);
    var job := if p.projectName != "" then p.projectName else p.taskName;
    NormalizePackages(job);
    Hex8Value(x);
    Hex8Value(y);
    SpliceInjective(Normalize(job), Hex8(x), Hex8(y));
    if Hex8(x) == Hex8(y) {
      Hex8Injective(x, y);
    }
  }

  /** Changing one byte of a package always changes its remote name. */
  lemma OneByteRenames(p: NameParams, q: NameParams, front: seq<Byte>, x: Byte, y: Byte, back: seq<Byte>)
    requires NamedPackage(p, Some(front + [x] + back)) && NamedPackage(q, Some(front + [y] + back))
    requires p.projectName == q.projectName && p.taskName == q.taskName
    ensures ResolveRemoteFilename(p, Some(front + [x] + back)) == ResolveRemoteFilename(q, Some(front + [y] + back))
       <==> x == y
  {
    SameNameIff(p, Some(front + [x] + back), q, Some(front + [y] + back));
    OneByteShows(front, x, y, back);
  }
}
