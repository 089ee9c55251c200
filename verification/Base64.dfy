/** Padded URL-safe base64, section 5 of RFC 4648, over byte strings (characters below 256). */
module Base64 {
  import opened Model

  predicate IsBytes(s: string) {
    forall k :: 0 <= k < |s| ==> s[k] as int < 256
  }

  /** A to Z, a to z, 0 to 9, then the two URL-safe symbols. */
  function Symbol(n: int): char
    requires 0 <= n < 64
  {
    if n < 26 then (65 + n) as char
    else if n < 52 then (71 + n) as char
    else if n < 62 then (n - 4) as char
    else if n == 62 then '-'
    else '_'
  }

  /** The value of a symbol; -1 for any character outside the alphabet, padding included. */
  function ValueOf(c: char): (v: int)
    ensures -1 <= v < 64
  {
    var n := c as int;
    if 65 <= n <= 90 then n - 65
    else if 97 <= n <= 122 then n - 71
    else if 48 <= n <= 57 then n + 4
    else if c == '-' then 62
    else if c == '_' then 63
    else -1
  }

  lemma SymbolValue(n: int)
    requires 0 <= n < 64
    ensures ValueOf(Symbol(n)) == n
    ensures Symbol(n) != '=' && Symbol(n) != '\n' && Symbol(n) != '\r'
  {
  }

  /** The four symbols of three bytes, six bits each. */
  function Symbol0(a: int): char
    requires 0 <= a < 256
  {
    Symbol(a / 4)
  }

  function Symbol1(a: int, b: int): char
    requires 0 <= a < 256 && 0 <= b < 256
  {
    Symbol(a % 4 * 16 + b / 16)
  }

  function Symbol2(b: int, c: int): char
    requires 0 <= b < 256 && 0 <= c < 256
  {
    Symbol(b % 16 * 4 + c / 64)
  }

  function Symbol3(c: int): char
    requires 0 <= c < 256
  {
    Symbol(c % 64)
  }

  /** Three bytes at a time; a final group of one or two bytes is padded. */
  function Encode(s: string): string
    requires IsBytes(s)
  {
    if s == "" then ""
    else
      var a := s[0] as int;
      if |s| == 1 then [Symbol0(a), Symbol1(a, 0), '=', '=']
      else
        var b := s[1] as int;
        if |s| == 2 then [Symbol0(a), Symbol1(a, b), Symbol2(b, 0), '=']
        else
          var c := s[2] as int;
          [Symbol0(a), Symbol1(a, b), Symbol2(b, c), Symbol3(c)] + Encode(s[3..])
  }

  function StripNewlines(t: string): string {
    if t == "" then ""
    else if t[0] == '\n' || t[0] == '\r' then StripNewlines(t[1..])
    else [t[0]] + StripNewlines(t[1..])
  }

  function Byte0(a: int, b: int): char
    requires 0 <= a < 64 && 0 <= b < 64
  {
    (a * 4 + b / 16) as char
  }

  function Byte1(b: int, c: int): char
    requires 0 <= b < 64 && 0 <= c < 64
  {
    (b % 16 * 16 + c / 4) as char
  }

  function Byte2(c: int, d: int): char
    requires 0 <= c < 64 && 0 <= d < 64
  {
    (c % 4 * 64 + d) as char
  }

  /** Groups of four; padding only in the last one; its unused low bits are ignored. */
  function Groups(t: string): Option<string> {
    if t == "" then Some("")
    else if |t| < 4 then None
    else
      var a, b, c, d := ValueOf(t[0]), ValueOf(t[1]), ValueOf(t[2]), ValueOf(t[3]);
      if a < 0 || b < 0 then None
      else if |t| == 4 && t[2] == '=' && t[3] == '=' then Some([Byte0(a, b)])
      else if c < 0 then None
      else if |t| == 4 && t[3] == '=' then Some([Byte0(a, b), Byte1(b, c)])
      else if d < 0 then None
      else
        match Groups(t[4..])
        case None => None
        case Some(rest) => Some([Byte0(a, b), Byte1(b, c), Byte2(c, d)] + rest)
  }

  /** The decoder skips line breaks anywhere. */
  function Decode(t: string): Option<string> {
    Groups(StripNewlines(t))
  }

  predicate IsSymbol(x: char) {
    ValueOf(x) >= 0 && x != '=' && x != '\n' && x != '\r'
  }

  lemma SplitByte(a: int, k: int)
    requires k > 0
    ensures a == a / k * k + a % k
  {
  }

  lemma GroupSymbols(a: int, b: int, c: int)
    requires 0 <= a < 256 && 0 <= b < 256 && 0 <= c < 256
    ensures IsSymbol(Symbol0(a)) && IsSymbol(Symbol1(a, b)) && IsSymbol(Symbol2(b, c)) && IsSymbol(Symbol3(c))
  {
    SymbolValue(a / 4);
    SymbolValue(a % 4 * 16 + b / 16);
    SymbolValue(b % 16 * 4 + c / 64);
    SymbolValue(c % 64);
  }

  /** The symbols of three bytes decode to those bytes, and so do the padded groups. */
  lemma GroupBits(a: int, b: int, c: int)
    requires 0 <= a < 256 && 0 <= b < 256 && 0 <= c < 256
    ensures IsSymbol(Symbol0(a)) && IsSymbol(Symbol1(a, b)) && IsSymbol(Symbol2(b, c)) && IsSymbol(Symbol3(c))
    ensures Byte0(ValueOf(Symbol0(a)), ValueOf(Symbol1(a, b))) == a as char
    ensures Byte1(ValueOf(Symbol1(a, b)), ValueOf(Symbol2(b, c))) == b as char
    ensures Byte2(ValueOf(Symbol2(b, c)), ValueOf(Symbol3(c))) == c as char
  {
    SymbolValue(a / 4);
    SymbolValue(a % 4 * 16 + b / 16);
    SymbolValue(b % 16 * 4 + c / 64);
    SymbolValue(c % 64);
    SplitByte(a, 4);
    assert (a % 4 * 16 + b / 16) / 16 == a % 4;
    assert (a % 4 * 16 + b / 16) % 16 == b / 16;
    assert (b % 16 * 4 + c / 64) / 4 == b % 16;
    assert (b % 16 * 4 + c / 64) % 4 == c / 64;
  }

  lemma {:induction false} StripNothing(t: string)
    requires forall k :: 0 <= k < |t| ==> t[k] != '\n' && t[k] != '\r'
    ensures StripNewlines(t) == t
  {
    if t != "" { StripNothing(t[1..]); }
  }

  /** The first group of an encoding, padded or not. */
  lemma FirstGroup(s: string)
    requires IsBytes(s) && s != ""
    ensures |Encode(s)| >= 4
    ensures forall k :: 0 <= k < 4 ==> Encode(s)[k] != '\n' && Encode(s)[k] != '\r'
    ensures |s| < 3 ==> |Encode(s)| == 4
    ensures |s| >= 3 ==> Encode(s)[4..] == Encode(s[3..])
  {
    var a := s[0] as int;
    var b := if |s| > 1 then s[1] as int else 0;
    var c := if |s| > 2 then s[2] as int else 0;
    GroupSymbols(a, b, c);
  }

  lemma {:induction false} EncodedSymbols(s: string)
    requires IsBytes(s)
    ensures forall k :: 0 <= k < |Encode(s)| ==> Encode(s)[k] != '\n' && Encode(s)[k] != '\r'
    ensures s != "" ==> Encode(s) != ""
  {
    if s != "" {
      FirstGroup(s);
      if |s| >= 3 {
        EncodedSymbols(s[3..]);
        assert forall k :: 4 <= k < |Encode(s)| ==> Encode(s)[k] == Encode(s)[4..][k - 4];
      }
    }
  }

  lemma GroupsOfOne(s: string)
    requires IsBytes(s) && |s| == 1
    ensures Groups(Encode(s)) == Some(s)
  {
    GroupBits(s[0] as int, 0, 0);
    assert s == [s[0]];
  }

  lemma GroupsOfTwo(s: string)
    requires IsBytes(s) && |s| == 2
    ensures Groups(Encode(s)) == Some(s)
  {
    GroupBits(s[0] as int, s[1] as int, 0);
    assert s == [s[0], s[1]];
  }

  /** A full group decodes to the three bytes its symbols carry. */
  lemma GroupsStep(x0: char, x1: char, x2: char, x3: char, rest: string)
    requires IsSymbol(x0) && IsSymbol(x1) && IsSymbol(x2) && IsSymbol(x3)
    ensures Groups([x0, x1, x2, x3] + rest) ==
      match Groups(rest)
      case None => None
      case Some(bytes) =>
        Some([Byte0(ValueOf(x0), ValueOf(x1)), Byte1(ValueOf(x1), ValueOf(x2)), Byte2(ValueOf(x2), ValueOf(x3))] + bytes)
  {
    var t := [x0, x1, x2, x3] + rest;
    assert t[4..] == rest;
    assert t[0] == x0 && t[1] == x1 && t[2] == x2 && t[3] == x3;
  }

  lemma GroupsFrom(s: string, x0: char, x1: char, x2: char, x3: char, rest: string)
    requires |s| >= 3 && Groups(rest) == Some(s[3..])
    requires IsSymbol(x0) && IsSymbol(x1) && IsSymbol(x2) && IsSymbol(x3)
    requires Byte0(ValueOf(x0), ValueOf(x1)) == s[0]
    requires Byte1(ValueOf(x1), ValueOf(x2)) == s[1]
    requires Byte2(ValueOf(x2), ValueOf(x3)) == s[2]
    ensures Groups([x0, x1, x2, x3] + rest) == Some(s)
  {
    GroupsStep(x0, x1, x2, x3, rest);
    assert [s[0], s[1], s[2]] + s[3..] == s;
  }

  lemma GroupsTriple(s: string)
    requires IsBytes(s) && |s| >= 3 && Groups(Encode(s[3..])) == Some(s[3..])
    ensures Groups(Encode(s)) == Some(s)
  {
    var a, b, c := s[0] as int, s[1] as int, s[2] as int;
    GroupBits(a, b, c);
    GroupsFrom(s, Symbol0(a), Symbol1(a, b), Symbol2(b, c), Symbol3(c), Encode(s[3..]));
  }

  lemma {:induction false} GroupsEncode(s: string)
    requires IsBytes(s)
    ensures Groups(Encode(s)) == Some(s)
  {
    if |s| >= 3 {
      GroupsEncode(s[3..]);
      GroupsTriple(s);
    } else if |s| == 2 {
      GroupsOfTwo(s);
    } else if |s| == 1 {
      GroupsOfOne(s);
    }
  }

  /** Decoding undoes encoding, for every byte string. */
  lemma RoundTrip(s: string)
    requires IsBytes(s)
    ensures Decode(Encode(s)) == Some(s)
  {
    EncodedSymbols(s);
    StripNothing(Encode(s));
    GroupsEncode(s);
  }

  /** The alphabet of section 5, by its characters. */
  lemma SymbolIsAlphabet(n: int)
    requires 0 <= n < 64
    ensures Symbol(n) as int ==
      if n < 26 then 'A' as int + n
      else if n < 52 then 'a' as int + (n - 26)
      else if n < 62 then '0' as int + (n - 52)
      else if n == 62 then '-' as int
      else '_' as int
  {
  }

  /** The four symbols are the base-64 digits of the three bytes read as one number. */
  lemma GroupIsNumber(a: int, b: int, c: int)
    requires 0 <= a < 256 && 0 <= b < 256 && 0 <= c < 256
    ensures var n := a * 65536 + b * 256 + c;
      && 0 <= n / 262144 < 64
      && Symbol0(a) == Symbol(n / 262144) && Symbol1(a, b) == Symbol(n / 4096 % 64)
      && Symbol2(b, c) == Symbol(n / 64 % 64) && Symbol3(c) == Symbol(n % 64)
  {
    var n := a * 65536 + b * 256 + c;
    assert n / 262144 == a / 4;
    assert n / 4096 == a * 16 + b / 16;
    assert (a * 16 + b / 16) % 64 == a % 4 * 16 + b / 16;
    assert n / 64 == a * 1024 + b * 4 + c / 64;
    assert (a * 1024 + b * 4 + c / 64) % 64 == b % 16 * 4 + c / 64;
    assert n % 64 == c % 64;
  }

  /** The j-th byte, or zero after the end. */
  function ByteAt(s: string, j: nat): (b: int)
    requires IsBytes(s)
    ensures 0 <= b < 256
  {
    if j < |s| then s[j] as int else 0
  }

  /** The j-th group of an encoding, by the number its three bytes make: digits for the bytes that
      are there, padding for the rest. */
  function GroupOf(s: string, j: nat): string
    requires IsBytes(s)
  {
    var n := ByteAt(s, 3 * j) * 65536 + ByteAt(s, 3 * j + 1) * 256 + ByteAt(s, 3 * j + 2);
    [Symbol(n / 262144), Symbol(n / 4096 % 64),
     if 3 * j + 1 < |s| then Symbol(n / 64 % 64) else '=', if 3 * j + 2 < |s| then Symbol(n % 64) else '=']
  }

  lemma FirstOfOne(s: string)
    requires IsBytes(s) && |s| == 1
    ensures |Encode(s)| == 4 && Encode(s) == GroupOf(s, 0)
  {
    GroupIsNumber(s[0] as int, 0, 0);
  }

  lemma FirstOfTwo(s: string)
    requires IsBytes(s) && |s| == 2
    ensures |Encode(s)| == 4 && Encode(s) == GroupOf(s, 0)
  {
    GroupIsNumber(s[0] as int, s[1] as int, 0);
  }

  lemma FirstOfMore(s: string)
    requires IsBytes(s) && |s| >= 3
    ensures |Encode(s)| >= 4 && Encode(s)[..4] == GroupOf(s, 0)
  {
    GroupIsNumber(s[0] as int, s[1] as int, s[2] as int);
  }

  lemma FirstGroupIs(s: string)
    requires IsBytes(s) && s != ""
    ensures |Encode(s)| >= 4 && Encode(s)[..4] == GroupOf(s, 0)
  {
    if |s| == 1 {
      FirstOfOne(s);
      assert Encode(s)[..4] == Encode(s);
    } else if |s| == 2 {
      FirstOfTwo(s);
      assert Encode(s)[..4] == Encode(s);
    } else {
      FirstOfMore(s);
    }
  }

  lemma LaterGroup(s: string, j: nat)
    requires IsBytes(s) && |s| >= 3
    ensures GroupOf(s, j + 1) == GroupOf(s[3..], j)
  {
    assert ByteAt(s, 3 * (j + 1)) == ByteAt(s[3..], 3 * j);
    assert ByteAt(s, 3 * (j + 1) + 1) == ByteAt(s[3..], 3 * j + 1);
    assert ByteAt(s, 3 * (j + 1) + 2) == ByteAt(s[3..], 3 * j + 2);
  }

  lemma OneGroupMore(n: nat)
    requires n >= 3
    ensures (n + 2) / 3 == (n - 3 + 2) / 3 + 1
  {
  }

  lemma {:induction false} EncodedLength(s: string)
    requires IsBytes(s)
    ensures |Encode(s)| == (|s| + 2) / 3 * 4
  {
    if |s| >= 3 {
      FirstGroup(s);
      EncodedLength(s[3..]);
      OneGroupMore(|s|);
      assert |Encode(s)| == 4 + |Encode(s[3..])|;
    } else if s != "" {
      FirstGroup(s);
    }
  }

  /** The j-th group of a text is this one. */
  predicate HasGroup(e: string, j: nat, g: string) {
    4 * j + 4 <= |e| && e[4 * j..4 * j + 4] == g
  }

  lemma HasLater(e: string, j: nat, g: string)
    requires |e| >= 4 && HasGroup(e[4..], j, g)
    ensures HasGroup(e, j + 1, g)
  {
    assert e[4..][4 * j..4 * j + 4] == e[4 * (j + 1)..4 * (j + 1) + 4];
  }

  lemma NextGroup(s: string, j: nat)
    requires IsBytes(s) && |s| >= 3 && HasGroup(Encode(s[3..]), j, GroupOf(s[3..], j))
    ensures HasGroup(Encode(s), j + 1, GroupOf(s, j + 1))
  {
    var g := GroupOf(s[3..], j);
    assert GroupOf(s, j + 1) == g by { LaterGroup(s, j); }
    assert |Encode(s)| >= 4 && Encode(s)[4..] == Encode(s[3..]) by { FirstGroup(s); }
    HasLater(Encode(s), j, g);
  }

  /** The symbols of an encoding are those of its groups. */
  lemma {:induction false} EncodedGroups(s: string, j: nat)
    requires IsBytes(s) && 3 * j < |s|
    ensures HasGroup(Encode(s), j, GroupOf(s, j))
  {
    if j == 0 {
      FirstGroupIs(s);
    } else {
      EncodedGroups(s[3..], j - 1);
      NextGroup(s, j - 1);
    }
  }

  predicate InAlphabet(x: char) {
    'A' <= x <= 'Z' || 'a' <= x <= 'z' || '0' <= x <= '9' || x == '-' || x == '_'
  }

  lemma InAlphabetIff(x: char)
    ensures ValueOf(x) >= 0 <==> InAlphabet(x)
  {
  }

  /** Whole groups of alphabet symbols, with one or two padding characters allowed at the very end. */
  predicate IsPadded(t: string) {
    && |t| % 4 == 0
    && (forall k :: 0 <= k < |t| - 2 ==> InAlphabet(t[k]))
    && (t != "" ==>
          || (t[|t| - 2] == '=' && t[|t| - 1] == '=')
          || (InAlphabet(t[|t| - 2]) && (InAlphabet(t[|t| - 1]) || t[|t| - 1] == '=')))
  }

  lemma PaddedTail(t: string)
    requires |t| > 4
    ensures IsPadded(t) <==>
      InAlphabet(t[0]) && InAlphabet(t[1]) && InAlphabet(t[2]) && InAlphabet(t[3]) && IsPadded(t[4..])
  {
    assert forall k :: 4 <= k < |t| ==> t[k] == t[4..][k - 4];
    if IsPadded(t) {
      forall k | 0 <= k < |t[4..]| - 2 ensures InAlphabet(t[4..][k]) { assert t[k + 4] == t[4..][k]; }
    }
  }

  lemma {:induction false} GroupsIff(t: string)
    ensures Groups(t).Some? <==> IsPadded(t)
  {
    if |t| >= 4 {
      InAlphabetIff(t[0]);
      InAlphabetIff(t[1]);
      InAlphabetIff(t[2]);
      InAlphabetIff(t[3]);
      if |t| > 4 {
        PaddedTail(t);
        GroupsIff(t[4..]);
      } else {
        assert t[4..] == "";
      }
    }
  }

  /** Exactly the padded texts decode, line breaks aside. */
  lemma DecodesIff(t: string)
    ensures Decode(t).Some? <==> IsPadded(StripNewlines(t))
  {
    GroupsIff(StripNewlines(t));
  }
}
