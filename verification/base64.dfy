/** base64: the encoding of section 4 of RFC 4648, with the canonical padding of its section 3.5. */
module Base64 {
  type byte = n: int | 0 <= n < 256
  type sextet = n: int | 0 <= n < 64

  datatype Status = Ok | InvalidEncoding | MissingPadding

  datatype Result = Result(bytes: seq<byte>, status: Status)

  /** The value of a character of the alphabet, or -1. */
  function DecodeSextet(c: char): (n: int)
    ensures -1 <= n < 64
  {
    if 'A' <= c <= 'Z' then c as int - 'A' as int
    else if 'a' <= c <= 'z' then 26 + (c as int - 'a' as int)
    else if '0' <= c <= '9' then 52 + (c as int - '0' as int)
    else if c == '+' then 62
    else if c == '/' then 63
    else -1
  }

  /** The alphabet, table 1 of RFC 4648. */
  function EncodeSextet(n: sextet): char {
    if n < 26 then ('A' as int + n) as char
    else if n < 52 then ('a' as int + (n - 26)) as char
    else if n < 62 then ('0' as int + (n - 52)) as char
    else if n == 62 then '+'
    else '/'
  }

  predicate InAlphabet(c: char) {
    DecodeSextet(c) >= 0
  }

  const UPPER := "ABCDEFGHIJKLMNOPQRSTUVWXYZ"
  const LOWER := "abcdefghijklmnopqrstuvwxyz"
  const DIGITS := "0123456789"

  /** The characters of the table in its order. */
  const ALPHABET := UPPER + LOWER + DIGITS + "+/"

  lemma Ranges(i: nat)
    ensures i < 26 ==> UPPER[i] == ('A' as int + i) as char
    ensures i < 26 ==> LOWER[i] == ('a' as int + i) as char
    ensures i < 10 ==> DIGITS[i] == ('0' as int + i) as char
  {
  }

  lemma AlphabetIsTheTable(n: sextet)
    ensures |ALPHABET| == 64 && EncodeSextet(n) == ALPHABET[n] && DecodeSextet(ALPHABET[n]) == n
  {
    if n < 26 {
      Ranges(n);
    } else if n < 52 {
      Ranges(n - 26);
    } else if n < 62 {
      Ranges(n - 52);
    }
  }

  lemma AlphabetIsInverse(n: sextet, c: char)
    ensures EncodeSextet(n) == c <==> DecodeSextet(c) == n
    ensures !InAlphabet('=')
  {
  }

  // ---------------------------------------------------------------------------------------------
  // Quanta
  // ---------------------------------------------------------------------------------------------

  /** The characters of up to three bytes. */
  function Quantum(b: seq<byte>): (t: string)
    requires 1 <= |b| <= 3
    ensures |t| == 4
  {
    var b0 := b[0];
    var b1: byte := if |b| > 1 then b[1] else 0;
    var b2: byte := if |b| > 2 then b[2] else 0;
    [EncodeSextet(b0 / 4),
     EncodeSextet(b0 % 4 * 16 + b1 / 16),
     if |b| > 1 then EncodeSextet(b1 % 16 * 4 + b2 / 64) else '=',
     if |b| > 2 then EncodeSextet(b2 % 64) else '=']
  }

  /** A quantum is the same number of 24 bits, the first byte and the first character being the highest; a
      byte that is not there counts as zero, and so does a padding character. */
  lemma QuantumIsBigEndian(b: seq<byte>)
    requires 1 <= |b| <= 3
    ensures var t := Quantum(b);
            var s0: int, s1: int, s2: int, s3: int := Bits(t[0]), Bits(t[1]), Bits(t[2]), Bits(t[3]);
            var b0: int, b1: int, b2: int := b[0], if |b| > 1 then b[1] else 0, if |b| > 2 then b[2] else 0;
            && ((s0 * 64 + s1) * 64 + s2) * 64 + s3 == (b0 * 256 + b1) * 256 + b2
            && (t[2] == '=' <==> |b| < 2) && (t[3] == '=' <==> |b| < 3)
  {
    hide EncodeSextet, DecodeSextet;
    var b1: byte := if |b| > 1 then b[1] else 0;
    var b2: byte := if |b| > 2 then b[2] else 0;
    AlphabetIsInverse(0, '=');
    AlphabetIsInverse(b1 % 16 * 4 + b2 / 64, '=');
    AlphabetIsInverse(b2 % 64, '=');
    BitsOfEncoded(b[0] / 4);
    BitsOfEncoded(b[0] % 4 * 16 + b1 / 16);
    BitsOfEncoded(b1 % 16 * 4 + b2 / 64);
    BitsOfEncoded(b2 % 64);
  }

  /** The number of equal signs that complete the last quantum of n bytes. */
  function PaddingOf(n: nat): (p: nat)
    ensures p <= 2 && (n + p) % 3 == 0
  {
    if n == 0 then 0 else if n <= 3 then 3 - n else PaddingOf(n - 3)
  }

  function Encoded(b: seq<byte>): (t: string)
    ensures 3 * |t| == 4 * (|b| + PaddingOf(|b|))
  {
    if |b| == 0 then ""
    else if |b| <= 3 then Quantum(b)
    else Quantum(b[..3]) + Encoded(b[3..])
  }

  /** The bits of a character; padding stands for zero bits. */
  function Bits(c: char): sextet {
    if InAlphabet(c) then DecodeSextet(c) else 0
  }

  function Triple(t: string): (b: seq<byte>)
    requires |t| == 4
    ensures |b| == 3
  {
    [Bits(t[0]) * 4 + Bits(t[1]) / 16,
     Bits(t[1]) % 16 * 16 + Bits(t[2]) / 4,
     Bits(t[2]) % 4 * 64 + Bits(t[3])]
  }

  function Triples(t: string): (b: seq<byte>)
    requires |t| % 4 == 0
    ensures 4 * |b| == 3 * |t|
  {
    if t == "" then [] else Triple(t[..4]) + Triples(t[4..])
  }

  /** The last n bytes are dropped. */
  function Front(b: seq<byte>, n: nat): seq<byte> {
    if n <= |b| then b[..|b| - n] else []
  }

  // ---------------------------------------------------------------------------------------------
  // Decoding
  // ---------------------------------------------------------------------------------------------

  /** Characters of the alphabet, and then `padding` equals signs. */
  predicate Padded(t: string, padding: nat) {
    && padding <= |t|
    && (forall i :: 0 <= i < |t| - padding ==> InAlphabet(t[i]))
    && (forall i :: |t| - padding <= i < |t| ==> t[i] == '=')
  }

  function UnusedBits(padding: nat): int {
    if padding == 2 then 16 else 4
  }

  /** The bits that the last character of the alphabet has left over are zero. */
  predicate UnusedBitsAreZero(t: string, padding: nat)
    requires padding < |t|
  {
    padding != 0 ==> Bits(t[|t| - padding - 1]) % UnusedBits(padding) == 0
  }

  predicate Canonical(t: string, padding: nat) {
    Padded(t, padding) && padding <= 2 && |t| % 4 == 0 && (t != "" ==> UnusedBitsAreZero(t, padding))
  }

  /** How much padding the scan has seen; Reject once a character cannot be where it is. */
  datatype Scan = Reject | Padding(count: nat)

  /** What one character does to the scan. */
  function ScanNext(s: Scan, c: char): Scan {
    if s.Reject? then s
    else if c == '=' then Padding(s.count + 1)
    else if s.count != 0 || !InAlphabet(c) then Reject
    else s
  }

  function Scanned(t: string): Scan
    decreases |t|
  {
    if t == "" then Padding(0) else ScanNext(Scanned(t[..|t| - 1]), t[|t| - 1])
  }

  lemma PaddedMore(t: string, c: char, p: nat)
    ensures Padded(t + [c], p) <==> if p == 0 then InAlphabet(c) && Padded(t, 0) else c == '=' && Padded(t, p - 1)
  {
    var more := t + [c];
    assert forall i :: 0 <= i < |t| ==> more[i] == t[i];
    assert more[|t|] == c;
    if Padded(more, p) {
      assert p > 0 ==> forall i :: |t| - (p - 1) <= i < |t| ==> more[i] == t[i] == '=';
      assert forall i :: 0 <= i < |more| - p ==> InAlphabet(more[i]);
    }
  }

  /** The scan accepts the texts that are characters of the alphabet and then equal signs, and counts
      these. */
  lemma {:induction false} ScanIsExact(t: string, p: nat)
    ensures Scanned(t) == Padding(p) <==> Padded(t, p)
    decreases |t|
  {
    if t != "" {
      var before, c := t[..|t| - 1], t[|t| - 1];
      assert t == before + [c];
      PaddedMore(before, c, p);
      ScanIsExact(before, 0);
      if p > 0 {
        ScanIsExact(before, p - 1);
      }
    }
  }

  /** decode(), with the quanta of RFC 4648 in place of the library that decodes them. */
  function Decoded(t: string): Result {
    if t == "" then Result([], Ok)
    else
      match Scanned(t)
      case Reject => Result([], InvalidEncoding)
      case Padding(p) =>
        ScanIsExact(t, p);
        if p > 2 || (p != 0 && |t| == 1) then Result([], InvalidEncoding)
        else if |t| % 4 != 0 then Result([], MissingPadding)
        else if p != 0 && Bits(t[|t| - p - 1]) % UnusedBits(p) != 0 then Result([], InvalidEncoding)
        else Result(Front(Triples(t), p), Ok)
  }

  // ---------------------------------------------------------------------------------------------
  // Encoding and decoding are inverse
  // ---------------------------------------------------------------------------------------------

  /** The test vectors of section 10 of RFC 4648. */
  lemma TestVectors()
    ensures Encoded([]) == ""
    ensures Encoded([102]) == "Zg=="
    ensures Encoded([102, 111]) == "Zm8="
    ensures Encoded([102, 111, 111]) == "Zm9v"
    ensures Encoded([102, 111, 111, 98]) == "Zm9vYg=="
    ensures Encoded([102, 111, 111, 98, 97]) == "Zm9vYmE="
    ensures Encoded([102, 111, 111, 98, 97, 114]) == "Zm9vYmFy"
  {
    assert [102, 111, 111, 98][3..] == [98];
    assert [102, 111, 111, 98, 97][3..] == [98, 97];
    assert [102, 111, 111, 98, 97, 114][3..] == [98, 97, 114];
  }

  lemma BitsOfEncoded(n: sextet)
    ensures InAlphabet(EncodeSextet(n)) && Bits(EncodeSextet(n)) == n
  {
  }

  lemma QuantumIsCanonical(b: seq<byte>)
    requires 1 <= |b| <= 3
    ensures Canonical(Quantum(b), 3 - |b|)
    ensures Triple(Quantum(b))[..|b|] == b
  {
    hide EncodeSextet, DecodeSextet;
    var b1: byte := if |b| > 1 then b[1] else 0;
    var b2: byte := if |b| > 2 then b[2] else 0;
    BitsOfEncoded(b[0] / 4);
    BitsOfEncoded(b[0] % 4 * 16 + b1 / 16);
    BitsOfEncoded(b1 % 16 * 4 + b2 / 64);
    BitsOfEncoded(b2 % 64);
  }

  lemma PaddedBehind(q: string, t: string, p: nat)
    requires p <= |t|
    ensures Padded(q + t, p) <==> Padded(q, 0) && Padded(t, p)
  {
    var more := q + t;
    assert forall i :: 0 <= i < |q| ==> more[i] == q[i];
    assert forall i :: 0 <= i < |t| ==> more[|q| + i] == t[i];
    if Padded(more, p) {
      forall i | 0 <= i < |t| ensures if i < |t| - p then InAlphabet(t[i]) else t[i] == '=' {
        assert more[|q| + i] == t[i];
      }
      assert Padded(q, 0);
    }
  }

  /** A quantum in front of a text that is not empty. */
  lemma CanonicalBehind(q: string, t: string, p: nat)
    requires |q| == 4 && |t| >= 4
    ensures Canonical(q + t, p) <==> Padded(q, 0) && Canonical(t, p)
  {
    if p <= 2 {
      PaddedBehind(q, t, p);
      assert (q + t)[|q + t| - p - 1] == t[|t| - p - 1];
    }
  }

  lemma TriplesMore(q: string, t: string)
    requires |q| == 4 && |t| % 4 == 0
    ensures Triples(q + t) == Triple(q) + Triples(t)
  {
  }

  lemma {:induction false} EncodedIsCanonical(b: seq<byte>)
    ensures Canonical(Encoded(b), PaddingOf(|b|))
    decreases |b|
  {
    if |b| > 3 {
      EncodedIsCanonical(b[3..]);
      assert Padded(Quantum(b[..3]), 0) by { QuantumIsCanonical(b[..3]); }
      CanonicalBehind(Quantum(b[..3]), Encoded(b[3..]), PaddingOf(|b|));
    } else if |b| > 0 {
      QuantumIsCanonical(b);
    }
  }

  lemma {:induction false} TriplesOfEncoded(b: seq<byte>)
    ensures Front(Triples(Encoded(b)), PaddingOf(|b|)) == b
    decreases |b|
  {
    hide Quantum, Triple;
    if |b| > 3 {
      var q, rest := Quantum(b[..3]), Encoded(b[3..]);
      TriplesOfEncoded(b[3..]);
      TriplesMore(q, rest);
      assert Triple(q) == b[..3] by { QuantumIsCanonical(b[..3]); }
      FrontBehind(Triple(q), Triples(rest), PaddingOf(|b|));
      assert b == b[..3] + b[3..];
    } else if |b| > 0 {
      QuantumIsCanonical(b);
      TriplesMore(Quantum(b), "");
      assert Quantum(b) + "" == Quantum(b);
    }
  }

  lemma FrontBehind(a: seq<byte>, b: seq<byte>, n: nat)
    requires n <= |b|
    ensures Front(a + b, n) == a + Front(b, n)
  {
  }

  lemma EncodedOfBits(c: char)
    requires InAlphabet(c)
    ensures EncodeSextet(Bits(c)) == c
  {
  }

  lemma SextetsOfTriple(s0: sextet, s1: sextet, s2: sextet, s3: sextet)
    ensures var b0, b1, b2 := s0 * 4 + s1 / 16, s1 % 16 * 16 + s2 / 4, s2 % 4 * 64 + s3;
            && b0 / 4 == s0
            && b0 % 4 * 16 + b1 / 16 == s1
            && b1 % 16 * 4 + b2 / 64 == s2
            && b2 % 64 == s3
  {
  }

  lemma QuantumOfTriple(q: string, p: nat)
    requires |q| == 4 && p <= 2 && Canonical(q, p)
    ensures Quantum(Front(Triple(q), p)) == q
  {
    hide EncodeSextet, DecodeSextet;
    assert Bits('=') == 0 by { AlphabetIsInverse(0, '='); }
    SextetsOfTriple(Bits(q[0]), Bits(q[1]), Bits(q[2]), Bits(q[3]));
    EncodedOfBits(q[0]);
    EncodedOfBits(q[1]);
    if p < 2 {
      EncodedOfBits(q[2]);
    }
    if p < 1 {
      EncodedOfBits(q[3]);
    }
    assert Quantum(Front(Triple(q), p)) == [q[0], q[1], q[2], q[3]];
  }

  lemma {:induction false} CanonicalIsEncoded(t: string, p: nat)
    requires Canonical(t, p) && t != ""
    ensures Encoded(Front(Triples(t), p)) == t
    decreases |t|
  {
    hide Quantum, Triple;
    var q, rest := t[..4], t[4..];
    assert t == q + rest;
    if rest == "" {
      assert q == t && Triples(t) == Triple(q);
      QuantumOfTriple(q, p);
    } else {
      TriplesMore(q, rest);
      CanonicalBehind(q, rest, p);
      CanonicalIsEncoded(rest, p);
      assert Quantum(Triple(q)[..3]) == q by { QuantumOfTriple(q, 0); }
      EncodedBehind(Triple(q), Front(Triples(rest), p));
      FrontBehind(Triple(q), Triples(rest), p);
      assert Triple(q)[..3] == Triple(q);
    }
  }

  lemma EncodedBehind(front: seq<byte>, back: seq<byte>)
    requires |front| == 3 && back != []
    ensures Encoded(front + back) == Quantum(front) + Encoded(back)
  {
  }

  lemma CanonicalDecodes(t: string, p: nat)
    requires Canonical(t, p) && t != ""
    ensures Decoded(t) == Result(Front(Triples(t), p), Ok)
  {
    ScanIsExact(t, p);
  }

  lemma DecodedIsCanonical(t: string) returns (p: nat)
    requires Decoded(t).status == Ok
    ensures Canonical(t, p)
  {
    p := if t == "" then 0 else Scanned(t).count;
    ScanIsExact(t, p);
  }

  /** Encoding is a bijection onto the texts that decode. */
  lemma DecodeIsInverse(t: string, b: seq<byte>)
    ensures Decoded(t) == Result(b, Ok) <==> Encoded(b) == t
  {
    if Encoded(b) == t && t != "" {
      EncodedIsCanonical(b);
      CanonicalDecodes(t, PaddingOf(|b|));
      TriplesOfEncoded(b);
    }
    if Decoded(t) == Result(b, Ok) && t != "" {
      var p := DecodedIsCanonical(t);
      CanonicalDecodes(t, p);
      CanonicalIsEncoded(t, p);
    }
  }

  /** When decoding fails, how, and that it then exposes no bytes. A text is told to lack padding iff it
      has the right characters in the right places and only its length is wrong. */
  lemma FailuresAreExact(t: string)
    ensures Decoded(t).status != Ok ==> Decoded(t).bytes == []
    ensures Decoded(t).status == MissingPadding
            <==> (exists p: nat :: p <= 2 && Padded(t, p)) && |t| % 4 != 0 && t != "="
    ensures Decoded(t).status == InvalidEncoding
            <==> t == "=" || forall p: nat :: p <= 2 && Padded(t, p) ==> |t| % 4 == 0 && !Canonical(t, p)
  {
    forall p: nat ensures Scanned(t) == Padding(p) <==> Padded(t, p) {
      ScanIsExact(t, p);
    }
    if t == "" {
      assert Padded(t, 0) && Canonical(t, 0);
    }
  }

  // ---------------------------------------------------------------------------------------------
  // In place
  // ---------------------------------------------------------------------------------------------

  lemma {:induction false} EncodedMore(b: seq<byte>, q: seq<byte>)
    requires |b| % 3 == 0 && 1 <= |q| <= 3
    ensures Encoded(b + q) == Encoded(b) + Quantum(q)
    decreases |b|
  {
    hide Quantum;
    if b == [] {
      assert b + q == q;
    } else {
      assert (b + q)[..3] == b[..3] && (b + q)[3..] == b[3..] + q;
      EncodedMore(b[3..], q);
      if |b| == 3 {
        assert b[..3] == b && b[3..] == [];
      }
    }
  }

  method PutQuantum(buffer: array<char>, at: nat, q: string)
    requires at + 4 <= buffer.Length && |q| == 4
    modifies buffer
    ensures buffer[..at + 4] == old(buffer[..at]) + q
  {
    buffer[at], buffer[at + 1], buffer[at + 2], buffer[at + 3] := q[0], q[1], q[2], q[3];
  }

  lemma EncodedUpTo(b: seq<byte>, start: nat, end: nat)
    requires start % 3 == 0 && start < end <= |b| && end <= start + 3
    ensures Encoded(b[..end]) == Encoded(b[..start]) + Quantum(b[start..end])
  {
    assert b[..end] == b[..start] + b[start..end];
    EncodedMore(b[..start], b[start..end]);
  }

  lemma SizeOfEncoded(b: seq<byte>)
    ensures |Encoded(b)| == (|b| + 2) / 3 * 4
  {
    hide Encoded, PaddingOf;
    var n, p := |b|, PaddingOf(|b|);
    var quanta := (n + p) / 3;
    assert n + p == 3 * quanta && |Encoded(b)| == 4 * quanta;
  }

  lemma EncodedGrows(b: seq<byte>, end: nat)
    requires end <= |b|
    ensures |Encoded(b[..end])| <= |Encoded(b)|
  {
    hide Encoded, PaddingOf;
    SizeOfEncoded(b);
    SizeOfEncoded(b[..end]);
  }

  method Encode(bytes: seq<byte>) returns (text: string)
    ensures text == Encoded(bytes)
  {
    hide Encoded, Quantum, PaddingOf;
    if |bytes| == 0 {
      SizeOfEncoded(bytes);
      return "";
    }
    SizeOfEncoded(bytes[..0]);
    var buffer := new char[(|bytes| + 2) / 3 * 4];
    SizeOfEncoded(bytes);
    var read, written := 0, 0;
    while read < |bytes|
      invariant read <= |bytes| && (read < |bytes| ==> read % 3 == 0)
      invariant written <= buffer.Length && buffer[..written] == Encoded(bytes[..read])
      decreases |bytes| - read
    {
      var end := if read + 3 <= |bytes| then read + 3 else |bytes|;
      EncodedUpTo(bytes, read, end);
      EncodedGrows(bytes, end);
      PutQuantum(buffer, written, Quantum(bytes[read..end]));
      read, written := end, written + 4;
    }
    assert bytes[..read] == bytes;
    text := buffer[..written];
  }

  lemma {:induction false} TriplesAppend(t: string, q: string)
    requires |t| % 4 == 0 && |q| == 4
    ensures Triples(t + q) == Triples(t) + Triple(q)
    decreases |t|
  {
    if t == "" {
      assert t + q == q && q[..4] == q && q[4..] == "";
    } else {
      assert (t + q)[..4] == t[..4] && (t + q)[4..] == t[4..] + q;
      TriplesAppend(t[4..], q);
    }
  }

  method DecodeBlocks(text: string) returns (bytes: array<byte>)
    requires |text| % 4 == 0
    ensures fresh(bytes) && bytes[..] == Triples(text)
  {
    hide Triple;
    bytes := new byte[|text| / 4 * 3](_ => 0);
    var done := 0;
    while 4 * done < |text|
      invariant 4 * done <= |text|
      invariant bytes[..3 * done] == Triples(text[..4 * done])
    {
      ghost var written := bytes[..3 * done];
      var b := Triple(text[4 * done..4 * done + 4]);
      TriplesAppend(text[..4 * done], text[4 * done..4 * done + 4]);
      assert text[..4 * done + 4] == text[..4 * done] + text[4 * done..4 * done + 4];
      bytes[3 * done], bytes[3 * done + 1], bytes[3 * done + 2] := b[0], b[1], b[2];
      assert bytes[..3 * done + 3] == written + b;
      done := done + 1;
    }
    assert text[..4 * done] == text && bytes[..3 * done] == bytes[..];
  }

  /** The scan at the start of decode(). */
  method ScanPadding(text: string) returns (ok: bool, padding: nat)
    ensures ok == Scanned(text).Padding?
    ensures ok ==> Padding(padding) == Scanned(text)
  {
    padding := 0;
    for i := 0 to |text|
      invariant Scanned(text[..i]) == Padding(padding)
    {
      var c := text[i];
      assert text[..i + 1][..i] == text[..i];
      if c == '=' {
        padding := padding + 1;
        continue;
      }
      if padding != 0 || DecodeSextet(c) < 0 {
        RejectedForGood(text, i + 1);
        return false, 0;
      }
    }
    assert text[..|text|] == text;
    ok := true;
  }

  lemma {:induction false} RejectedForGood(t: string, i: nat)
    requires i <= |t| && Scanned(t[..i]).Reject?
    ensures Scanned(t).Reject?
    decreases |t|
  {
    if i == |t| {
      assert t[..i] == t;
    } else {
      assert t[..|t| - 1][..i] == t[..i];
      RejectedForGood(t[..|t| - 1], i);
    }
  }

  method Decode(text: string) returns (r: Result)
    ensures r == Decoded(text)
  {
    if text == "" {
      return Result([], Ok);
    }
    var ok, padding := ScanPadding(text);
    if !ok {
      return Result([], InvalidEncoding);
    }
    ScanIsExact(text, padding);
    if padding > 2 || (padding != 0 && |text| == 1) {
      return Result([], InvalidEncoding);
    }
    if |text| % 4 != 0 {
      return Result([], MissingPadding);
    }
    if padding != 0 {
      var left := DecodeSextet(text[|text| - (padding + 1)]);
      if left % (if padding == 2 then 16 else 4) != 0 {
        return Result([], InvalidEncoding);
      }
    }
    var bytes := DecodeBlocks(text);
    assert Front(Triples(text), padding) == bytes[..bytes.Length - padding];
    return Result(bytes[..bytes.Length - padding], Ok);
  }
}
