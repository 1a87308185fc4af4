/** The Base64 codec of the web interface (html/encode.js), with its UTF-8 step. A string is a
    sequence of 16-bit code units. The specification speaks of quotients, remainders and sums;
    the loops compute with shifts, masks and the bitwise or. */
module Codec {
  import opened Bits
  import opened CTypes

  type Text = seq<U16>

  const CR: U16 := 13
  const LF: U16 := 10
  const PAD := 64

  // UTF-8.

  /** Every CRLF becomes LF. */
  function Normalised(s: Text): Text {
    if s == [] then []
    else if |s| >= 2 && s[0] == CR && s[1] == LF then [LF] + Normalised(s[2..])
    else [s[0]] + Normalised(s[1..])
  }

  predicate HasCrLf(s: Text) {
    exists i :: 0 <= i < |s| - 1 && s[i] == CR && s[i + 1] == LF
  }

  /** The bytes of one code unit: eleven bits in two bytes, sixteen in three. */
  function Utf8Unit(c: U16): Text {
    if c < 128 then [c]
    else if c < 2048 then [192 + c / 64, 128 + c % 64]
    else [224 + c / 4096, 128 + c / 64 % 64, 128 + c % 64]
  }

  function Utf8(s: Text): Text {
    if s == [] then [] else Utf8Unit(s[0]) + Utf8(s[1..])
  }

  /** The code unit at i, where one past the end counts as zero in bit operations. */
  function UnitAt(t: Text, i: nat): U16 {
    if i < |t| then t[i] else 0
  }

  function DecodedUnit(t: Text): U16
    requires t != []
  {
    var c := t[0];
    if c < 128 then c
    else if 191 < c < 224 then c % 32 * 64 + UnitAt(t, 1) % 64
    else c % 16 * 4096 + UnitAt(t, 1) % 64 * 64 + UnitAt(t, 2) % 64
  }

  function Width(c: U16): (w: nat)
    ensures w > 0
  {
    if c < 128 then 1 else if 191 < c < 224 then 2 else 3
  }

  function Rest(t: Text, n: nat): (r: Text)
    ensures n > 0 && t != [] ==> |r| < |t|
  {
    if n <= |t| then t[n..] else []
  }

  function Utf8Decoded(t: Text): Text
    decreases |t|
  {
    if t == [] then [] else [DecodedUnit(t)] + Utf8Decoded(Rest(t, Width(t[0])))
  }

  lemma TwoParts(c: U16)
    requires c < 2048
    ensures 192 <= 192 + c / 64 < 224 && (192 + c / 64) % 32 == c / 64 && (128 + c % 64) % 64 == c % 64
    ensures c / 64 * 64 + c % 64 == c
  {
  }

  lemma ThreeParts(c: U16)
    ensures 224 <= 224 + c / 4096 && (224 + c / 4096) % 16 == c / 4096
    ensures (128 + c / 64 % 64) % 64 == c / 64 % 64 && (128 + c % 64) % 64 == c % 64
    ensures c / 4096 * 4096 + c / 64 % 64 * 64 + c % 64 == c
  {
    assert c / 64 == c / 4096 * 64 + c / 64 % 64;
  }

  /** The bytes of a code unit give it back over its full width. */
  lemma UnitBack(c: U16, rest: Text)
    ensures var t := Utf8Unit(c) + rest;
      DecodedUnit(t) == c && Width(t[0]) == |Utf8Unit(c)| && Rest(t, Width(t[0])) == rest
  {
    var u := Utf8Unit(c);
    var t := u + rest;
    assert t[|u|..] == rest && t[0] == u[0];
    if c < 128 {
    } else if c < 2048 {
      TwoParts(c);
      assert UnitAt(t, 1) == u[1];
    } else {
      ThreeParts(c);
      assert UnitAt(t, 1) == u[1] && UnitAt(t, 2) == u[2];
    }
  }

  /** Any string of code units comes back from its bytes. */
  lemma {:induction false} Utf8Back(s: Text)
    ensures Utf8Decoded(Utf8(s)) == s
  {
    if s != [] {
      UnitBack(s[0], Utf8(s[1..]));
      Utf8Back(s[1..]);
    }
  }

  predicate AllBytes(t: Text) {
    forall i :: 0 <= i < |t| ==> t[i] < 256
  }

  lemma {:induction false} Utf8Bytes(s: Text)
    ensures AllBytes(Utf8(s))
  {
    if s != [] {
      Utf8Bytes(s[1..]);
    }
  }

  lemma {:induction false} Utf8Append(a: Text, b: Text)
    ensures Utf8(a + b) == Utf8(a) + Utf8(b)
  {
    if a == [] {
      assert a + b == b;
    } else {
      assert (a + b)[1..] == a[1..] + b;
      Utf8Append(a[1..], b);
    }
  }

  predicate Continues(b: U16) {
    0x80 <= b <= 0xbf
  }

  /** Every code unit takes the fewest bytes that hold it: one below 128, two below 2048 and else
      three, with the lead and continuation bytes of section 3 of RFC 3629, and its value is
      what their bits say. */
  lemma ShortestForm(c: U16)
    ensures var u := Utf8([c]);
      && (|u| == 1 <==> c < 128) && (|u| == 2 <==> 128 <= c < 2048) && (|u| == 3 <==> 2048 <= c)
      && (|u| == 1 ==> u[0] == c)
      && (|u| == 2 ==> 0xc2 <= u[0] <= 0xdf && Continues(u[1]) && c == (u[0] - 0xc0) * 64 + (u[1] - 0x80))
      && (|u| == 3 ==>
           0xe0 <= u[0] <= 0xef && Continues(u[1]) && Continues(u[2]) && (u[0] == 0xe0 ==> u[1] >= 0xa0) &&
           c == (u[0] - 0xe0) * 4096 + (u[1] - 0x80) * 64 + (u[2] - 0x80))
  {
    assert Utf8([c]) == Utf8Unit(c) + Utf8([]);
    if c >= 2048 {
      ThreeParts(c);
    } else if c >= 128 {
      TwoParts(c);
    }
  }

  /** No byte that only an overlong form begins with: neither 0xC0 nor 0xC1, nor 0xE0 before a
      byte below 0xA0. */
  predicate NoOverlong(t: Text) {
    && (forall i :: 0 <= i < |t| ==> t[i] != 0xc0 && t[i] != 0xc1)
    && (forall i :: 0 <= i < |t| - 1 && t[i] == 0xe0 ==> t[i + 1] >= 0xa0)
  }

  lemma {:induction false} Utf8NoOverlong(s: Text)
    ensures NoOverlong(Utf8(s))
    ensures s != [] ==> Utf8(s) != [] && Utf8(s)[|Utf8(s)| - 1] != 0xe0
  {
    if s != [] {
      var u, rest := Utf8([s[0]]), Utf8(s[1..]);
      assert [s[0]] + s[1..] == s;
      Utf8Append([s[0]], s[1..]);
      ShortestForm(s[0]);
      Utf8NoOverlong(s[1..]);
      JoinNoOverlong(u, rest);
      assert s[1..] == [] ==> rest == [];
    }
  }

  lemma JoinNoOverlong(u: Text, rest: Text)
    requires NoOverlong(u) && NoOverlong(rest) && u != [] && u[|u| - 1] != 0xe0
    ensures NoOverlong(u + rest)
    ensures (u + rest)[|u + rest| - 1] == if rest == [] then u[|u| - 1] else rest[|rest| - 1]
  {
    var t := u + rest;
    forall i | 0 <= i < |t|
      ensures t[i] != 0xc0 && t[i] != 0xc1
    {
      assert t[i] == if i < |u| then u[i] else rest[i - |u|];
    }
    forall i | 0 <= i < |t| - 1 && t[i] == 0xe0
      ensures t[i + 1] >= 0xa0
    {
      assert t[i] == if i < |u| then u[i] else rest[i - |u|];
      assert t[i + 1] == if i + 1 < |u| then u[i + 1] else rest[i + 1 - |u|];
    }
  }

  // Line ends.

  /** Every CRLF, wherever it stands, becomes an LF and parts what is around it. */
  lemma {:induction false} NormalisedSplits(a: Text, b: Text)
    ensures Normalised(a + [CR, LF] + b) == Normalised(a) + [LF] + Normalised(b)
    decreases |a|
  {
    var s := a + [CR, LF] + b;
    if a == [] {
      assert s[2..] == b;
    } else if |a| >= 2 && a[0] == CR && a[1] == LF {
      assert s[2..] == a[2..] + [CR, LF] + b;
      NormalisedSplits(a[2..], b);
    } else {
      assert s[1..] == a[1..] + [CR, LF] + b;
      NormalisedSplits(a[1..], b);
      assert !(s[0] == CR && s[1] == LF);
    }
  }

  lemma {:induction false} NormalisedShorter(s: Text)
    ensures |Normalised(s)| <= |s|
  {
    if s != [] {
      NormalisedShorter(s[1..]);
      if |s| >= 2 {
        NormalisedShorter(s[2..]);
      }
    }
  }

  /** Normalising changes exactly the strings that hold a CRLF. */
  lemma {:induction false} NormalisedSame(s: Text)
    ensures Normalised(s) == s <==> !HasCrLf(s)
  {
    if s != [] {
      if |s| >= 2 && s[0] == CR && s[1] == LF {
        NormalisedShorter(s[2..]);
      } else {
        NormalisedSame(s[1..]);
        if HasCrLf(s) {
          var i :| 0 <= i < |s| - 1 && s[i] == CR && s[i + 1] == LF;
          assert s[1..][i - 1] == CR && s[1..][i] == LF;
        }
        if HasCrLf(s[1..]) {
          var i :| 0 <= i < |s[1..]| - 1 && s[1..][i] == CR && s[1..][i + 1] == LF;
          assert s[i + 1] == CR && s[i + 2] == LF;
        }
        assert Normalised(s)[1..] == Normalised(s[1..]);
      }
    }
  }

  // The alphabet.

  predicate InCharset(c: U16) {
    || 'A' as int <= c <= 'Z' as int
    || 'a' as int <= c <= 'z' as int
    || '0' as int <= c <= '9' as int
    || c == '+' as int || c == '/' as int || c == '=' as int
  }

  /** Sixty-five different characters from A-Z, a-z, 0-9, +, / and =, the last one =. */
  predicate Alphabet(key: Text) {
    && |key| == 65 && key[PAD] == '=' as int
    && (forall i :: 0 <= i < |key| ==> InCharset(key[i]))
    && (forall i, j :: 0 <= i < j < |key| ==> key[i] != key[j])
  }

  function IndexOf(key: Text, c: U16): (i: nat)
    ensures i <= |key| && (forall k :: 0 <= k < i ==> key[k] != c)
    ensures i < |key| ==> key[i] == c
  {
    if key == [] || key[0] == c then 0 else 1 + IndexOf(key[1..], c)
  }

  /** A number for each character of the set. */
  function Rank(c: U16): (r: nat)
    requires InCharset(c)
    ensures r < 65
  {
    if 'A' as int <= c <= 'Z' as int then c - 'A' as int
    else if 'a' as int <= c <= 'z' as int then c - 'a' as int + 26
    else if '0' as int <= c <= '9' as int then c - '0' as int + 52
    else if c == '+' as int then 62
    else if c == '/' as int then 63
    else 64
  }

  function UpTo(n: nat): (s: set<nat>)
    ensures |s| == n && forall k: nat :: k in s <==> k < n
  {
    if n == 0 then {} else UpTo(n - 1) + {n - 1}
  }

  function Ranks(key: Text, n: nat): set<nat>
    requires n <= |key| && forall i :: 0 <= i < |key| ==> InCharset(key[i])
  {
    if n == 0 then {} else Ranks(key, n - 1) + {Rank(key[n - 1])}
  }

  lemma RankInjective(c: U16, d: U16)
    requires InCharset(c) && InCharset(d) && Rank(c) == Rank(d)
    ensures c == d
  {
  }

  lemma {:induction false} RanksAre(key: Text, n: nat)
    requires Alphabet(key) && n <= |key|
    ensures |Ranks(key, n)| == n
    ensures forall r :: r in Ranks(key, n) ==> r < 65 && exists i :: 0 <= i < n && Rank(key[i]) == r
  {
    if n > 0 {
      RanksAre(key, n - 1);
      forall i | 0 <= i < n - 1
        ensures Rank(key[i]) != Rank(key[n - 1])
      {
        if Rank(key[i]) == Rank(key[n - 1]) {
          RankInjective(key[i], key[n - 1]);
        }
      }
      assert Rank(key[n - 1]) !in Ranks(key, n - 1);
    }
  }

  lemma SubsetOfSameSize(a: set<nat>, b: set<nat>)
    requires a <= b && |a| == |b|
    ensures a == b
  {
    assert |b - a| == |b| - |a|;
    assert b == a + (b - a);
  }

  /** An alphabet leaves no character of the set out. */
  lemma AlphabetHasAll(key: Text, c: U16)
    requires Alphabet(key) && InCharset(c)
    ensures IndexOf(key, c) < 65
  {
    var i := PlaceOfRank(key, Rank(c));
    RankInjective(key[i], c);
    assert key[i] == c;
  }

  lemma PlaceOfRank(key: Text, r: nat) returns (i: nat)
    requires Alphabet(key) && r < 65
    ensures i < 65 && Rank(key[i]) == r
  {
    RanksAre(key, 65);
    SubsetOfSameSize(Ranks(key, 65), UpTo(65));
    assert r in UpTo(65);
    i :| 0 <= i < 65 && Rank(key[i]) == r;
  }

  lemma IndexBack(key: Text, i: nat)
    requires Alphabet(key) && i < 65
    ensures IndexOf(key, key[i]) == i
  {
  }

  // Groups of three bytes and four digits.

  /** The digits of the bytes t[0], t[1] and t[2], of which the last two may be missing. */
  function Digits(t: Text): (d: seq<nat>)
    requires t != []
    ensures |d| == 4
  {
    var b2, b3 := UnitAt(t, 1), UnitAt(t, 2);
    [t[0] / 4, t[0] % 4 * 16 + b2 / 16,
     if |t| == 1 then PAD else b2 % 16 * 4 + b3 / 64,
     if |t| <= 2 then PAD else b3 % 64]
  }

  /** The digits are those of the group's value in base 64, missing bytes counting as zero and
      missing digits being the padding. */
  lemma DigitsAreBase64(t: Text)
    requires t != [] && AllBytes(t)
    ensures var d := Digits(t);
      && d[0] < 64 && d[1] < 64 && d[2] <= 64 && d[3] <= 64
      && (d[2] == PAD <==> |t| == 1) && (d[3] == PAD <==> |t| <= 2)
      && ((d[0] * 64 + d[1]) * 64 + d[2] % PAD) * 64 + d[3] % PAD == (t[0] * 256 + UnitAt(t, 1)) * 256 + UnitAt(t, 2)
  {
  }

  /** The bytes that four digits give. The padding as second digit sets the bit of 4. */
  function Bytes(d1: nat, d2: nat, d3: nat, d4: nat): Text
    requires d1 <= 64 && d2 <= 64 && d3 <= 64 && d4 <= 64
  {
    [if d2 < PAD then d1 * 4 + d2 / 16 else d1 * 4 + if d1 % 2 == 0 then 4 else 0] +
    (if d3 != PAD then [d2 % 16 * 16 + d3 / 4] else []) +
    (if d4 != PAD then [d3 % 4 * 64 + d4] else [])
  }

  lemma GroupBack(t: Text)
    requires t != [] && AllBytes(t)
    ensures var d := Digits(t);
      d[0] < 64 && d[1] < 64 && d[2] <= 64 && d[3] <= 64 && Bytes(d[0], d[1], d[2], d[3]) + Rest(t, 3) == t
  {
    var d := Digits(t);
    DigitsAreBase64(t);
    assert Bytes(d[0], d[1], d[2], d[3]) == if |t| >= 3 then t[..3] else t by {
      assert d[0] * 4 + d[1] / 16 == t[0];
      assert |t| > 1 ==> d[1] % 16 * 16 + d[2] / 4 == t[1];
      assert |t| > 2 ==> d[2] % 4 * 64 + d[3] == t[2];
    }
  }

  // Whole strings.

  function Characters(d: seq<nat>, key: Text): Text
    requires |d| == 4 && |key| == 65 && d[0] <= 64 && d[1] <= 64 && d[2] <= 64 && d[3] <= 64
  {
    [key[d[0]], key[d[1]], key[d[2]], key[d[3]]]
  }

  function EncodedBytes(t: Text, key: Text): Text
    requires |key| == 65 && AllBytes(t)
    decreases |t|
  {
    if t == [] then []
    else
      DigitsAreBase64(t);
      Characters(Digits(t), key) + EncodedBytes(Rest(t, 3), key)
  }

  function Encoded(s: Text, key: Text): Text
    requires |key| == 65
  {
    Utf8Bytes(Normalised(s));
    EncodedBytes(Utf8(Normalised(s)), key)
  }

  predicate AllInCharset(t: Text) {
    forall i :: 0 <= i < |t| ==> InCharset(t[i])
  }

  /** What is left after everything outside the set is removed. */
  function Filtered(s: Text): (r: Text)
    ensures AllInCharset(r)
  {
    if s == [] then [] else (if InCharset(s[0]) then [s[0]] else []) + Filtered(s[1..])
  }

  /** The place of a character; past the end of the input there is the empty string, whose
      place is 0. */
  function DigitAt(t: Text, i: nat, key: Text): (d: nat)
    requires Alphabet(key) && AllInCharset(t)
    ensures d <= 64
  {
    if i < |t| then
      AlphabetHasAll(key, t[i]);
      IndexOf(key, t[i])
    else 0
  }

  function DecodedBytes(t: Text, key: Text): Text
    requires Alphabet(key) && AllInCharset(t)
    decreases |t|
  {
    if t == [] then [] else BytesAt(t, 0, key) + DecodedBytes(Rest(t, 4), key)
  }

  function Decoded(s: Text, key: Text): Text
    requires Alphabet(key)
  {
    Utf8Decoded(DecodedBytes(Filtered(s), key))
  }

  lemma {:induction false} FilteredSame(s: Text)
    requires AllInCharset(s)
    ensures Filtered(s) == s
  {
    if s != [] {
      FilteredSame(s[1..]);
    }
  }

  lemma {:induction false} EncodedInCharset(t: Text, key: Text)
    requires Alphabet(key) && AllBytes(t)
    ensures AllInCharset(EncodedBytes(t, key))
    decreases |t|
  {
    if t != [] {
      DigitsAreBase64(t);
      EncodedInCharset(Rest(t, 3), key);
    }
  }

  lemma CharactersBack(d: seq<nat>, rest: Text, key: Text)
    requires Alphabet(key) && AllInCharset(rest)
    requires |d| == 4 && d[0] <= 64 && d[1] <= 64 && d[2] <= 64 && d[3] <= 64
    ensures var t := Characters(d, key) + rest;
      && AllInCharset(t)
      && (forall k :: 0 <= k < 4 ==> DigitAt(t, k, key) == d[k])
      && Rest(t, 4) == rest
  {
    var t := Characters(d, key) + rest;
    assert t[4..] == rest;
    IndexBack(key, d[0]);
    IndexBack(key, d[1]);
    IndexBack(key, d[2]);
    IndexBack(key, d[3]);
  }

  lemma {:induction false} BytesBack(t: Text, key: Text)
    requires Alphabet(key) && AllBytes(t)
    ensures AllInCharset(EncodedBytes(t, key)) && DecodedBytes(EncodedBytes(t, key), key) == t
    decreases |t|
  {
    EncodedInCharset(t, key);
    if t != [] {
      var d, rest := Digits(t), EncodedBytes(Rest(t, 3), key);
      DigitsAreBase64(t);
      EncodedInCharset(Rest(t, 3), key);
      CharactersBack(d, rest, key);
      GroupBack(t);
      BytesBack(Rest(t, 3), key);
      assert EncodedBytes(t, key) == Characters(d, key) + rest;
    }
  }

  /** Four characters that stand for the bytes t[3 * i], t[3 * i + 1] and t[3 * i + 2]: the value
      of the group, from the highest six bits down, and the last character of the alphabet for
      each byte that is missing (section 4 of RFC 4648). */
  predicate StandsFor(e: Text, t: Text, key: Text, i: nat)
    requires |key| == 65 && AllBytes(t) && 3 * i < |t| && 4 * i + 4 <= |e|
  {
    var value := (t[3 * i] * 256 + UnitAt(t, 3 * i + 1)) * 256 + UnitAt(t, 3 * i + 2);
    && e[4 * i] == key[value / 0x4_0000]
    && e[4 * i + 1] == key[value / 0x1000 % 64]
    && e[4 * i + 2] == (if 3 * i + 1 < |t| then key[value / 64 % 64] else key[PAD])
    && e[4 * i + 3] == (if 3 * i + 2 < |t| then key[value % 64] else key[PAD])
  }

  lemma {:induction false} EncodedLength(t: Text, key: Text)
    requires |key| == 65 && AllBytes(t)
    ensures |EncodedBytes(t, key)| == (|t| + 2) / 3 * 4
    decreases |t|
  {
    if t != [] {
      DigitsAreBase64(t);
      var rest := Rest(t, 3);
      assert |rest| == if |t| > 3 then |t| - 3 else 0;
      EncodedLength(rest, key);
      assert |EncodedBytes(t, key)| == 4 + |EncodedBytes(rest, key)|;
    }
  }

  /** The encoding has just these characters, group by group. */
  lemma {:induction false} EncodedAt(t: Text, key: Text, i: nat)
    requires |key| == 65 && AllBytes(t) && 3 * i < |t|
    ensures 4 * i + 4 <= |EncodedBytes(t, key)| && StandsFor(EncodedBytes(t, key), t, key, i)
    decreases i
  {
    DigitsAreBase64(t);
    var chars, rest := Characters(Digits(t), key), EncodedBytes(Rest(t, 3), key);
    if i == 0 {
      GroupDigits(t);
    } else {
      EncodedAt(Rest(t, 3), key, i - 1);
      ShiftGroup(chars, rest, t, key, i);
    }
  }

  lemma ShiftGroup(chars: Text, rest: Text, t: Text, key: Text, i: nat)
    requires |key| == 65 && AllBytes(t) && i > 0 && 3 * i < |t| && |chars| == 4 && 4 * i <= |rest|
    requires AllBytes(Rest(t, 3)) && StandsFor(rest, Rest(t, 3), key, i - 1)
    ensures StandsFor(chars + rest, t, key, i)
  {
    var e, r, k := chars + rest, Rest(t, 3), 4 * (i - 1);
    assert e[4 * i] == rest[k] && e[4 * i + 1] == rest[k + 1] && e[4 * i + 2] == rest[k + 2] && e[4 * i + 3] == rest[k + 3];
    assert r[3 * (i - 1)] == t[3 * i];
    assert UnitAt(r, 3 * (i - 1) + 1) == UnitAt(t, 3 * i + 1) && UnitAt(r, 3 * (i - 1) + 2) == UnitAt(t, 3 * i + 2);
  }

  lemma GroupDigits(t: Text)
    requires t != [] && AllBytes(t)
    ensures var d, value := Digits(t), (t[0] * 256 + UnitAt(t, 1)) * 256 + UnitAt(t, 2);
      && d[0] == value / 0x4_0000 < 64 && d[1] == value / 0x1000 % 64
      && d[2] == (if |t| > 1 then value / 64 % 64 else PAD) && d[3] == (if |t| > 2 then value % 64 else PAD)
  {
    DigitsAreBase64(t);
    var d := Digits(t);
    var c, e := UnitAt(t, 1) % 16 * 4 + UnitAt(t, 2) / 64, UnitAt(t, 2) % 64;
    assert d[2] % PAD == c && d[3] % PAD == e;
    Base64Digits(d[0], d[1], c, e);
  }

  lemma Base64Digits(a: nat, b: nat, c: nat, d: nat)
    requires a < 64 && b < 64 && c < 64 && d < 64
    ensures var value := ((a * 64 + b) * 64 + c) * 64 + d;
      && value / 0x4_0000 == a && value / 0x1000 % 64 == b && value / 64 % 64 == c && value % 64 == d
  {
    var value := ((a * 64 + b) * 64 + c) * 64 + d;
    assert value / 64 == (a * 64 + b) * 64 + c;
    assert value / 0x1000 == a * 64 + b;
  }

  lemma {:induction false} FilteredIgnores(a: Text, c: U16, b: Text)
    requires !InCharset(c)
    ensures Filtered(a + [c] + b) == Filtered(a + b)
  {
    if a == [] {
      assert (a + [c] + b)[1..] == b && a + b == b;
    } else {
      assert (a + [c] + b)[1..] == a[1..] + [c] + b && (a + b)[1..] == a[1..] + b;
      FilteredIgnores(a[1..], c, b);
    }
  }

  /** A character outside the set does not matter to the decoding, wherever it stands. */
  lemma DecodeIgnores(a: Text, c: U16, b: Text, key: Text)
    requires Alphabet(key) && !InCharset(c)
    ensures Decoded(a + [c] + b, key) == Decoded(a + b, key)
  {
    FilteredIgnores(a, c, b);
  }

  /** For every alphabet and every string, decoding what was encoded gives the string with its
      CRLFs as LFs. */
  lemma RoundTrip(s: Text, key: Text)
    requires Alphabet(key)
    ensures Decoded(Encoded(s, key), key) == Normalised(s)
  {
    var t := Utf8(Normalised(s));
    Utf8Bytes(Normalised(s));
    BytesBack(t, key);
    FilteredSame(EncodedBytes(t, key));
    Utf8Back(Normalised(s));
  }

  /** The string itself comes back if and only if it holds no CRLF. */
  lemma RoundTripExactly(s: Text, key: Text)
    requires Alphabet(key)
    ensures Decoded(Encoded(s, key), key) == s <==> !HasCrLf(s)
  {
    RoundTrip(s, key);
    NormalisedSame(s);
  }

  // The loops.

  method EncodeUnit(c: U16) returns (u: Text)
    ensures u == Utf8Unit(c)
  {
    Powers();
    if c < 128 {
      u := [c];
    } else if c < 2048 {
      var b1 := OrMask(c / 64, 3, 6);
      var b2 := OrMask(c % 64, 2, 6);
      u := [b1, b2];
    } else {
      var b1 := OrMask(c / 4096, 14, 4);
      var b2 := OrMask(c / 64 % 64, 2, 6);
      var b3 := OrMask(c % 64, 2, 6);
      u := [b1, b2, b3];
    }
  }

  method UtfEncode(s: Text) returns (utftext: Text)
    ensures utftext == Utf8(Normalised(s)) && NoOverlong(utftext)
  {
    var input := Normalised(s);
    utftext := [];
    for n := 0 to |input|
      invariant utftext + Utf8(input[n..]) == Utf8(input)
    {
      var u := EncodeUnit(input[n]);
      assert input[n..][0] == input[n] && input[n..][1..] == input[n + 1..];
      utftext := utftext + u;
    }
    Utf8NoOverlong(input);
  }

  method DecodeUnit(t: Text, i: nat) returns (c: U16)
    requires i < |t|
    ensures c == DecodedUnit(t[i..])
  {
    var c1, c2, c3 := t[i], UnitAt(t, i + 1), UnitAt(t, i + 2);
    Powers();
    if c1 < 128 {
      c := c1;
    } else if 191 < c1 < 224 {
      c := ShiftOr(c1 % 32, 6, c2 % 64);
    } else {
      var high := ShiftOr(c1 % 16, 12, c2 % 64 * 64);
      assert high == (c1 % 16 * 64 + c2 % 64) * 64;
      c := ShiftOr(c1 % 16 * 64 + c2 % 64, 6, c3 % 64);
    }
  }

  /** One turn of the loop of _ud. */
  method UtfDecodeNext(utftext: Text, i: nat, s: Text) returns (s': Text, i': nat)
    requires i < |utftext|
    ensures i < i' && s' + Utf8Decoded(Rest(utftext, i')) == s + Utf8Decoded(Rest(utftext, i))
  {
    var c := DecodeUnit(utftext, i);
    i' := i + Width(utftext[i]);
    s' := s + [c];
    DecodedStep(utftext, i, s);
  }

  method UtfDecode(utftext: Text) returns (s: Text)
    ensures s == Utf8Decoded(utftext)
  {
    s := [];
    var i := 0;
    while i < |utftext|
      invariant s + Utf8Decoded(Rest(utftext, i)) == Utf8Decoded(utftext)
      decreases |utftext| - i
    {
      s, i := UtfDecodeNext(utftext, i, s);
    }
  }

  lemma RestOfRest(t: Text, i: nat, n: nat)
    ensures Rest(Rest(t, i), n) == Rest(t, i + n)
  {
    if i + n <= |t| {
      DropDrop(t, i, n);
    }
  }

  lemma DropDrop(t: Text, i: nat, n: nat)
    requires i + n <= |t|
    ensures t[i..][n..] == t[i + n..]
  {
  }

  lemma Assoc(s: Text, a: Text, b: Text)
    ensures s + a + b == s + (a + b)
  {
  }

  lemma DecodedHead(t: Text)
    requires t != []
    ensures Utf8Decoded(t) == [DecodedUnit(t)] + Utf8Decoded(Rest(t, Width(t[0])))
  {
  }

  lemma DecodedStep(t: Text, i: nat, s: Text)
    requires i < |t|
    ensures s + [DecodedUnit(t[i..])] + Utf8Decoded(Rest(t, i + Width(t[i]))) == s + Utf8Decoded(Rest(t, i))
  {
    var r, n := Rest(t, i), Width(t[i]);
    RestOfRest(t, i, n);
    DecodedHead(r);
    Assoc(s, [DecodedUnit(r)], Utf8Decoded(Rest(r, n)));
  }

  lemma EncodedStep(t: Text, i: nat, key: Text, s: Text)
    requires i < |t| && |key| == 65 && AllBytes(t)
    ensures AllBytes(Rest(t, i)) && AllBytes(Rest(t, i + 3))
    ensures var d := Digits(Rest(t, i));
      && d[0] <= 64 && d[1] <= 64 && d[2] <= 64 && d[3] <= 64
      && s + Characters(d, key) + EncodedBytes(Rest(t, i + 3), key) == s + EncodedBytes(Rest(t, i), key)
  {
    var r := Rest(t, i);
    DigitsAreBase64(r);
    RestOfRest(t, i, 3);
    var rest := EncodedBytes(Rest(r, 3), key);
    assert EncodedBytes(r, key) == Characters(Digits(r), key) + rest;
    assert s + (Characters(Digits(r), key) + rest) == s + Characters(Digits(r), key) + rest;
  }

  lemma DigitOfRest(t: Text, i: nat, k: nat, key: Text)
    requires i < |t| && Alphabet(key) && AllInCharset(t)
    ensures AllInCharset(Rest(t, i)) && DigitAt(Rest(t, i), k, key) == DigitAt(t, i + k, key)
  {
    var r := Rest(t, i);
    assert forall n :: 0 <= n < |r| ==> r[n] == t[i + n];
  }

  function BytesAt(t: Text, i: nat, key: Text): Text
    requires Alphabet(key) && AllInCharset(t)
  {
    Bytes(DigitAt(t, i, key), DigitAt(t, i + 1, key), DigitAt(t, i + 2, key), DigitAt(t, i + 3, key))
  }

  lemma BytesOfRest(t: Text, i: nat, key: Text)
    requires i < |t| && Alphabet(key) && AllInCharset(t)
    ensures AllInCharset(Rest(t, i)) && BytesAt(Rest(t, i), 0, key) == BytesAt(t, i, key)
  {
    DigitOfRest(t, i, 0, key);
    DigitOfRest(t, i, 1, key);
    DigitOfRest(t, i, 2, key);
    DigitOfRest(t, i, 3, key);
  }

  lemma BytesStep(t: Text, i: nat, key: Text, s: Text)
    requires i < |t| && Alphabet(key) && AllInCharset(t)
    ensures AllInCharset(Rest(t, i)) && AllInCharset(Rest(t, i + 4))
    ensures s + BytesAt(t, i, key) + DecodedBytes(Rest(t, i + 4), key) == s + DecodedBytes(Rest(t, i), key)
  {
    BytesOfRest(t, i, key);
    RestOfRest(t, i, 4);
    Assoc(s, BytesAt(t, i, key), DecodedBytes(Rest(Rest(t, i), 4), key));
  }

  /** The digits of the group at i. */
  method EncodeGroup(t: Text, i: nat) returns (d: seq<nat>)
    requires i < |t| && AllBytes(t)
    ensures d == Digits(t[i..])
  {
    var chr1, chr2, chr3 := t[i], UnitAt(t, i + 1), UnitAt(t, i + 2);
    Powers();
    var enc1 := chr1 / 4;
    var enc2 := ShiftOr(chr1 % 4, 4, chr2 / 16);
    var enc3 := ShiftOr(chr2 % 16, 2, chr3 / 64);
    var enc4 := chr3 % 64;
    if i + 1 >= |t| {
      enc3, enc4 := 64, 64;
    } else if i + 2 >= |t| {
      enc4 := 64;
    }
    d := [enc1, enc2, enc3, enc4];
  }

  /** One turn of the loop of _e. */
  method EncodeNext(t: Text, i: nat, key: Text, s: Text) returns (output: Text)
    requires i < |t| && |key| == 65 && AllBytes(t)
    ensures AllBytes(Rest(t, i)) && AllBytes(Rest(t, i + 3))
    ensures output + EncodedBytes(Rest(t, i + 3), key) == s + EncodedBytes(Rest(t, i), key)
  {
    var d := EncodeGroup(t, i);
    EncodedStep(t, i, key, s);
    output := s + [key[d[0]], key[d[1]], key[d[2]], key[d[3]]];
  }

  method Encode(s: Text, key: Text) returns (output: Text)
    requires |key| == 65
    ensures output == Encoded(s, key)
  {
    var input := UtfEncode(s);
    Utf8Bytes(Normalised(s));
    output := [];
    var i := 0;
    while i < |input|
      invariant AllBytes(Rest(input, i))
      invariant output + EncodedBytes(Rest(input, i), key) == EncodedBytes(input, key)
      decreases |input| - i
    {
      output := EncodeNext(input, i, key, output);
      i := i + 3;
    }
  }

  /** The bytes of the four digits. */
  method DecodeGroup(enc1: nat, enc2: nat, enc3: nat, enc4: nat) returns (output: Text)
    requires enc1 <= 64 && enc2 <= 64 && enc3 <= 64 && enc4 <= 64
    ensures output == Bytes(enc1, enc2, enc3, enc4)
  {
    var chr1;
    Powers();
    if enc2 / 16 < 4 {
      chr1 := ShiftOr(enc1, 2, enc2 / 16);
    } else {
      chr1 := ShiftOrFour(enc1);
    }
    output := [chr1];
    if enc3 != 64 {
      var chr2 := ShiftOr(enc2 % 16, 4, enc3 / 4);
      output := output + [chr2];
    }
    if enc4 != 64 {
      var chr3 := ShiftOr(enc3 % 4, 6, enc4);
      output := output + [chr3];
    }
  }

  /** One turn of the loop of _d. */
  method DecodeNext(t: Text, i: nat, key: Text, s: Text) returns (output: Text)
    requires i < |t| && Alphabet(key) && AllInCharset(t)
    ensures AllInCharset(Rest(t, i)) && AllInCharset(Rest(t, i + 4))
    ensures output + DecodedBytes(Rest(t, i + 4), key) == s + DecodedBytes(Rest(t, i), key)
  {
    var enc1, enc2 := DigitAt(t, i, key), DigitAt(t, i + 1, key);
    var enc3, enc4 := DigitAt(t, i + 2, key), DigitAt(t, i + 3, key);
    var bytes := DecodeGroup(enc1, enc2, enc3, enc4);
    output := s + bytes;
    BytesStep(t, i, key, s);
  }

  method DecodeCharacters(input: Text, key: Text) returns (output: Text)
    requires Alphabet(key) && AllInCharset(input)
    ensures output == DecodedBytes(input, key)
  {
    output := [];
    var i := 0;
    ghost var total := DecodedBytes(input, key);
    assert Rest(input, 0) == input;
    while i < |input|
      invariant AllInCharset(Rest(input, i)) && output + DecodedBytes(Rest(input, i), key) == total
      decreases |input| - i
    {
      output := DecodeNext(input, i, key, output);
      i := i + 4;
    }
    assert Rest(input, i) == [];
  }

  method Decode(s: Text, key: Text) returns (output: Text)
    requires Alphabet(key)
    ensures output == Decoded(s, key)
  {
    var input := Filtered(s);
    var bytes := DecodeCharacters(input, key);
    output := UtfDecode(bytes);
  }
}
