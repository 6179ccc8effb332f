/**
 * The TypeScript base64 polyfill: loops over a fractional index and 32-bit shifts, against the
 * encoding of section 4 of RFC 4648.
 */
module Base64 {
  import opened Wrappers

  // A JavaScript string is a sequence of 16-bit code units.
  type Code = n: int | 0 <= n < 65536
  type Text = seq<Code>

  const Pad: Code := 61

  // Table 1 of RFC 4648, and the padding after it: what both loops look characters up in.
  const UpperCase := "ABCDEFGHIJKLMNOPQRSTUVWXYZ"
  const LowerCase := "abcdefghijklmnopqrstuvwxyz"
  const Table := UpperCase + LowerCase + "0123456789" + "+/" + "="

  // The character at a place of the table, as arithmetic on code units.
  function Symbol(v: int): Code
    requires 0 <= v <= 64
  {
    if v < 26 then 65 + v else if v < 52 then 71 + v else if v < 62 then v - 4
    else if v == 62 then 43 else if v == 63 then 47 else Pad
  }

  // Where a character is in the table, or -1.
  function IndexOf(c: Code): (v: int)
    ensures -1 <= v <= 64
    ensures v != -1 ==> Symbol(v) == c
    ensures forall w :: 0 <= w <= 64 && Symbol(w) == c ==> v == w
  {
    if 65 <= c < 91 then c - 65 else if 97 <= c < 123 then c - 71 else if 48 <= c < 58 then c + 4
    else if c == 43 then 62 else if c == 47 then 63 else if c == Pad then 64 else -1
  }

  lemma UpperCaseAt(v: int)
    requires 0 <= v < 26
    ensures |UpperCase| == 26 && UpperCase[v] as int == 65 + v
  {
  }

  lemma LowerCaseAt(v: int)
    requires 0 <= v < 26
    ensures |LowerCase| == 26 && LowerCase[v] as int == 97 + v
  {
  }

  lemma SymbolAt(v: int)
    requires 0 <= v <= 64
    ensures |Table| == 65 && Symbol(v) == Table[v] as int
  {
    if v < 26 { UpperCaseAt(v); } else if v < 52 { LowerCaseAt(v - 26); }
  }

  /** Symbol gives what is at each of the 65 places of the table; IndexOf is the place a character has
      there, and -1 if and only if it has none. */
  lemma TableLookedUp(c: Code)
    ensures |Table| == 65 && forall v :: 0 <= v <= 64 ==> Symbol(v) == Table[v] as int
    ensures IndexOf(c) >= 0 ==> Table[IndexOf(c)] as int == c
    ensures IndexOf(c) == -1 <==> forall v :: 0 <= v <= 64 ==> Table[v] as int != c
  {
    forall v | 0 <= v <= 64
      ensures |Table| == 65 && Symbol(v) == Table[v] as int
    {
      SymbolAt(v);
    }
    SymbolAt(64);
    if IndexOf(c) >= 0 {
      assert Table[IndexOf(c)] as int == c;
    }
  }

  // ----- JavaScript arithmetic on 32 bits -----

  function ToInt32(x: int): int {
    (x + 0x8000_0000) % 0x1_0000_0000 - 0x8000_0000
  }

  // block >> shift, for the shifts the loops make: a signed shift rounds down.
  function ShiftRight(block: int, shift: nat): int
    requires shift <= 8 && shift % 2 == 0
  {
    if shift == 0 then block else if shift == 2 then block / 4 else if shift == 4 then block / 16
    else if shift == 6 then block / 64 else block / 256
  }

  // ----- Section 4 of RFC 4648 -----

  predicate Latin1(s: Text) {
    forall j :: 0 <= j < |s| ==> s[j] <= 0xff
  }

  // Three octets are 24 bits, taken as four digits of six bits.
  function Digits(a: int, b: int, c: int): seq<Code>
    requires Octet(a) && Octet(b) && Octet(c)
  {
    [Symbol(Digit0(a)), Symbol(Digit1(a, b)), Symbol(Digit2(b, c)), Symbol(Digit3(c))]
  }

  predicate Octet(a: int) {
    0 <= a < 256
  }

  predicate SixBit(v: int) {
    0 <= v < 64
  }

  function Digit0(a: int): (v: int)
    requires Octet(a)
    ensures SixBit(v)
  {
    a / 4
  }

  function Digit1(a: int, b: int): (v: int)
    requires Octet(a) && Octet(b)
    ensures SixBit(v)
  {
    a % 4 * 16 + b / 16
  }

  function Digit2(b: int, c: int): (v: int)
    requires Octet(b) && Octet(c)
    ensures SixBit(v)
  {
    b % 16 * 4 + c / 64
  }

  function Digit3(c: int): (v: int)
    requires Octet(c)
    ensures SixBit(v)
  {
    c % 64
  }

  // The three octets and the four digits are one number.
  lemma SameNumber(a: int, b: int, c: int)
    requires Octet(a) && Octet(b) && Octet(c)
    ensures Digit0(a) * 262144 + Digit1(a, b) * 4096 + Digit2(b, c) * 64 + Digit3(c) == a * 65536 + b * 256 + c
  {
  }

  /** What the four characters of three octets mean: looked up in the table and read as digits to the
      base 64, they are the number of 24 bits that the octets make up. */
  lemma DigitsNumber(a: int, b: int, c: int)
    requires Octet(a) && Octet(b) && Octet(c)
    ensures var d := Digits(a, b, c);
            IndexOf(d[0]) * 262144 + IndexOf(d[1]) * 4096 + IndexOf(d[2]) * 64 + IndexOf(d[3]) ==
                a * 65536 + b * 256 + c
  {
    var d := Digits(a, b, c);
    assert IndexOf(d[0]) == Digit0(a) && IndexOf(d[1]) == Digit1(a, b);
    assert IndexOf(d[2]) == Digit2(b, c) && IndexOf(d[3]) == Digit3(c);
    SameNumber(a, b, c);
  }

  lemma OneWay(x0: int, x1: int, x2: int, x3: int, y0: int, y1: int, y2: int, y3: int)
    requires SixBit(x0) && SixBit(x1) && SixBit(x2) && SixBit(x3)
    requires SixBit(y0) && SixBit(y1) && SixBit(y2) && SixBit(y3)
    requires x0 * 262144 + x1 * 4096 + x2 * 64 + x3 == y0 * 262144 + y1 * 4096 + y2 * 64 + y3
    ensures x0 == y0 && x1 == y1 && x2 == y2 && x3 == y3
  {
  }

  /** The four characters, from the table itself: those at the places that are the digits, to the base 64,
      of the number of 24 bits that the octets make up. */
  lemma DigitsFromTable(a: int, b: int, c: int, x0: int, x1: int, x2: int, x3: int)
    requires Octet(a) && Octet(b) && Octet(c) && SixBit(x0) && SixBit(x1) && SixBit(x2) && SixBit(x3)
    requires x0 * 262144 + x1 * 4096 + x2 * 64 + x3 == a * 65536 + b * 256 + c
    ensures |Table| == 65
    ensures Digits(a, b, c) == [Table[x0] as int, Table[x1] as int, Table[x2] as int, Table[x3] as int]
  {
    SameNumber(a, b, c);
    OneWay(x0, x1, x2, x3, Digit0(a), Digit1(a, b), Digit2(b, c), Digit3(c));
    SymbolAt(x0);
    SymbolAt(x1);
    SymbolAt(x2);
    SymbolAt(x3);
  }

  function Encode(s: Text): Text
    requires Latin1(s)
  {
    if |s| == 0 then []
    else if |s| == 1 then Digits(s[0], 0, 0)[..2] + [Pad, Pad]
    else if |s| == 2 then Digits(s[0], s[1], 0)[..3] + [Pad]
    else Digits(s[0], s[1], s[2]) + Encode(s[3..])
  }

  // One group of characters, and the characters of what follows it.
  lemma GroupFirst(a: Code, b: Code, c: Code, rest: Text)
    requires Octet(a) && Octet(b) && Octet(c) && Latin1(rest)
    ensures Latin1([a, b, c] + rest) && Encode([a, b, c] + rest) == Digits(a, b, c) + Encode(rest)
  {
    assert ([a, b, c] + rest)[3..] == rest;
  }

  // The three octets of "foo", and what "bar" begins with.
  lemma ShortVectors()
    ensures Digits(102, 111, 111) == [90, 109, 57, 118]      // Zm9v
    ensures Encode([102]) == [90, 103, 61, 61]               // f: Zg==
    ensures Encode([102, 111]) == [90, 109, 56, 61]          // fo: Zm8=
    ensures Encode([98]) == [89, 103, 61, 61]                // b: Yg==
    ensures Encode([98, 97]) == [89, 109, 69, 61]            // ba: YmE=
    ensures Digits(98, 97, 114) == [89, 109, 70, 121]        // YmFy
  {
  }

  /** The test vectors of section 10 of RFC 4648: the beginnings of "foobar". */
  lemma TestVectors()
    ensures Encode([]) == []
    ensures Encode([102]) == [90, 103, 61, 61]                                                  // Zg==
    ensures Encode([102, 111]) == [90, 109, 56, 61]                                             // Zm8=
    ensures Encode([102, 111, 111] + []) == [90, 109, 57, 118]                                  // Zm9v
    ensures Encode([102, 111, 111] + [98]) == [90, 109, 57, 118] + [89, 103, 61, 61]            // Zm9vYg==
    ensures Encode([102, 111, 111] + [98, 97]) == [90, 109, 57, 118] + [89, 109, 69, 61]        // Zm9vYmE=
    ensures Encode([102, 111, 111] + ([98, 97, 114] + [])) == [90, 109, 57, 118] + [89, 109, 70, 121]   // Zm9vYmFy
  {
    ShortVectors();
    GroupFirst(102, 111, 111, []);
    GroupFirst(102, 111, 111, [98]);
    GroupFirst(102, 111, 111, [98, 97]);
    GroupFirst(98, 97, 114, []);
    GroupFirst(102, 111, 111, [98, 97, 114] + []);
    assert [90, 109, 57, 118] + [] == [90, 109, 57, 118] && [89, 109, 70, 121] + [] == [89, 109, 70, 121];
  }

  function At(s: Text, j: nat): int {
    if j < |s| then s[j] else 0
  }

  // The character at a place of a group that starts at octet j.
  function DigitAt(s: Text, j: nat, r: nat): Code
    requires Latin1(s) && j < |s| && r < 4
  {
    if (r == 2 && j + 1 >= |s|) || (r == 3 && j + 2 >= |s|) then Pad else Digits(s[j], At(s, j + 1), At(s, j + 2))[r]
  }

  lemma EncodeHead(s: Text, r: nat)
    requires Latin1(s) && s != [] && r < 4
    ensures |Encode(s)| >= 4 && Encode(s)[r] == DigitAt(s, 0, r)
  {
  }

  lemma {:induction false} EncodeAt(s: Text, g: nat, r: nat)
    requires Latin1(s) && 3 * g < |s| && r < 4
    ensures 4 * g + r < |Encode(s)|
    ensures Encode(s)[4 * g + r] == DigitAt(s, 3 * g, r)
    decreases g
  {
    if g == 0 {
      EncodeHead(s, r);
    } else {
      EncodeAt(s[3..], g - 1, r);
      assert Encode(s)[4 * g + r] == Encode(s[3..])[4 * (g - 1) + r];
    }
  }

  lemma {:induction false} EncodeLength(s: Text, groups: nat)
    requires Latin1(s) && 3 * (groups - 1) < |s| <= 3 * groups
    ensures |Encode(s)| == 4 * groups
  {
    if groups > 0 && |s| >= 3 {
      EncodeLength(s[3..], groups - 1);
    }
  }

  // ----- btoa -----

  // Six bits of the block, from the place they have in the group.
  function Taken(block: int, r: nat): (v: int)
    requires r < 4
    ensures SixBit(v)
  {
    ShiftRight(block, 2 + 2 * r) % 64
  }

  lemma Mod64(q: int, x: int)
    ensures (q * 64 + x) % 64 == x % 64
  {
  }

  // Only the low sixteen bits of the block matter, so the wrap-around of the rest does not.
  lemma LowBits0(high: int, low: int)
    ensures (high * 65536 + low) / 4 % 64 == low / 4 % 64
  {
    assert (high * 65536 + low) / 4 == high * 256 * 64 + low / 4;
    Mod64(high * 256, low / 4);
  }

  lemma LowBits1(high: int, low: int)
    ensures (high * 65536 + low) / 16 % 64 == low / 16 % 64
  {
    assert (high * 65536 + low) / 16 == high * 64 * 64 + low / 16;
    Mod64(high * 64, low / 16);
  }

  lemma LowBits2(high: int, low: int)
    ensures (high * 65536 + low) / 64 % 64 == low / 64 % 64
  {
    assert (high * 65536 + low) / 64 == high * 16 * 64 + low / 64;
    Mod64(high * 16, low / 64);
  }

  lemma LowBits3(high: int, low: int)
    ensures (high * 65536 + low) / 256 % 64 == low / 256 % 64
  {
    assert (high * 65536 + low) / 256 == high * 4 * 64 + low / 256;
    Mod64(high * 4, low / 256);
  }

  lemma LowBits(high: int, low: int, r: nat)
    requires r < 4
    ensures Taken(high * 65536 + low, r) == Taken(low, r)
  {
    match r {
      case 0 => LowBits0(high, low);
      case 1 => LowBits1(high, low);
      case 2 => LowBits2(high, low);
      case _ => LowBits3(high, low);
    }
  }

  // (block << 8) | c
  function ShiftIn(block: int, c: int): int
    requires Octet(c)
  {
    ToInt32(block * 256) + c
  }

  // The two octets shifted in last are the low bits.
  lemma ShiftedIn(block: int, c: int) returns (high: int)
    requires Octet(c)
    ensures ShiftIn(block, c) == high * 65536 + (block % 256 * 256 + c)
    ensures ShiftIn(block, c) % 256 == c
  {
    var q := (block * 256 + 0x8000_0000) / 0x1_0000_0000;
    assert ToInt32(block * 256) == block * 256 - q * 0x1_0000_0000;
    high := block / 256 - q * 65536;
    assert ShiftIn(block, c) == (high * 256 + block % 256) * 256 + c;
  }

  lemma Taken0(prev: int, a: int)
    requires Octet(prev) && Octet(a)
    ensures Taken(prev * 256 + a, 0) == Digit0(a)
  {
    assert (prev * 256 + a) / 4 == prev * 64 + a / 4;
  }

  lemma Taken1(a: int, b: int)
    requires Octet(a) && Octet(b)
    ensures Taken(a * 256 + b, 1) == Digit1(a, b)
  {
    assert (a * 256 + b) / 16 == a / 4 * 64 + (a % 4 * 16 + b / 16);
  }

  lemma Taken2(b: int, c: int)
    requires Octet(b) && Octet(c)
    ensures Taken(b * 256 + c, 2) == Digit2(b, c)
  {
    assert (b * 256 + c) / 64 == b / 16 * 64 + (b % 16 * 4 + c / 64);
  }

  lemma Taken3(c: int, next: int)
    requires Octet(c) && Octet(next)
    ensures Taken(c * 256 + next, 3) == Digit3(c)
  {
    assert (c * 256 + next) / 256 == c;
  }

  // 63 & (block >> (8 - (i % 1) * 8)), for an index with q quarters left over
  function SixBits(block: int, q: int): (v: int)
    requires 0 <= q < 4
    ensures SixBit(v)
  {
    ShiftRight(block, 8 - 2 * q) % 64
  }

  lemma SixBitsTaken(block: int, r: nat)
    requires r < 4
    ensures SixBits(block, 3 - r) == Taken(block, r)
  {
  }

  // The code unit read last when the index is 12 g + 3 r quarters.
  function Last(g: nat, r: nat): nat
    requires r < 4
  {
    3 * g + if r == 0 then 0 else r - 1
  }

  lemma Quarters(g: nat, r: nat)
    requires r < 4
    ensures (12 * g + 3 * r) / 4 == Last(g, r) && (12 * g + 3 * r) % 4 == if r == 0 then 0 else 4 - r
  {
  }

  // The loop has written r digits after g groups and read the code units up to Last(g, r).
  ghost predicate Encoding(str: Text, g: nat, r: nat, block: int, output: Text)
    requires r < 4
  {
    && 3 * (if r == 0 then g - 1 else g) < |str|
    && (g + r > 0 ==>
         (forall j :: 0 <= j <= Last(g, r) && j < |str| ==> str[j] <= 0xff) && block % 256 == At(str, Last(g, r)))
    && (Latin1(str) ==> 4 * g + r <= |Encode(str)| && output == Encode(str)[..4 * g + r])
  }

  // What one turn of the loop writes.
  function Written(v: int, padding: bool): Text
    requires SixBit(v)
  {
    if !padding then [Symbol(v)] else if v == 0 then [Pad] else []
  }

  // What the last two octets read yield, at every place of a group.
  lemma WritesDigit(s: Text, j: nat, r: nat, prev: int)
    requires Latin1(s) && j < |s| && r < 4 && Octet(prev) && (r > 0 ==> prev == At(s, j + r - 1))
    ensures Written(Taken(prev * 256 + At(s, j + r), r), r > 0 && j + r - 1 >= |s|) == [DigitAt(s, j, r)]
  {
    match r {
      case 0 => Taken0(prev, s[j]);
      case 1 => Taken1(s[j], At(s, j + 1));
      case 2 => Taken2(At(s, j + 1), At(s, j + 2));
      case _ => Taken3(At(s, j + 2), At(s, j + 3));
    }
  }

  // What is taken after an octet was shifted in depends on that octet and the one before it.
  lemma TakesLow(block: int, c: int, r: nat)
    requires Octet(c) && r < 4
    ensures Taken(ShiftIn(block, c), r) == Taken(block % 256 * 256 + c, r)
  {
    var high := ShiftedIn(block, c);
    LowBits(high, block % 256 * 256 + c, r);
  }

  lemma WritesNext(s: Text, g: nat, r: nat, block: int)
    requires Latin1(s) && 3 * g < |s| && r < 4
    requires g + r > 0 ==> block % 256 == At(s, Last(g, r))
    ensures 4 * g + r < |Encode(s)|
    ensures Written(Taken(ShiftIn(block, At(s, 3 * g + r)), r), Last(g, r) >= |s|) == [Encode(s)[4 * g + r]]
  {
    TakesLow(block, At(s, 3 * g + r), r);
    WritesDigit(s, 3 * g, r, block % 256);
    EncodeAt(s, g, r);
  }

  lemma OutputNext(str: Text, g: nat, r: nat, block: int, output: Text)
    requires Latin1(str) && r < 4 && Encoding(str, g, r, block, output) && 3 * g < |str|
    ensures var v := Taken(ShiftIn(block, At(str, 3 * g + r)), r);
            4 * g + r < |Encode(str)| && output + Written(v, Last(g, r) >= |str|) == Encode(str)[..4 * g + r + 1]
  {
    WritesNext(str, g, r, block);
    assert Encode(str)[..4 * g + r + 1] == Encode(str)[..4 * g + r] + [Encode(str)[4 * g + r]];
  }

  lemma EncodingNext(str: Text, g: nat, r: nat, block: int, output: Text)
    requires r < 4 && Encoding(str, g, r, block, output) && 3 * g < |str| && At(str, 3 * g + r) <= 0xff
    ensures var next := ShiftIn(block, At(str, 3 * g + r));
            var out := output + Written(Taken(next, r), Last(g, r) >= |str|);
            if r == 3 then Encoding(str, g + 1, 0, next, out) else Encoding(str, g, r + 1, next, out)
  {
    var high := ShiftedIn(block, At(str, 3 * g + r));
    if Latin1(str) {
      OutputNext(str, g, r, block, output);
    }
  }

  lemma EncodingDone(str: Text, g: nat, block: int, output: Text)
    requires Encoding(str, g, 0, block, output) && 3 * g >= |str|
    ensures Latin1(str) && output == Encode(str)
  {
    assert Latin1(str);
    EncodeLength(str, g);
  }

  /**
   * btoa. The index i moves by three quarters, so `k` counts quarters; `padding` says that the
   * map has become the single padding character. Encodes as section 4 of RFC 4648 does, and fails
   * exactly on a string with a character above 0xff.
   */
  method Btoa(str: Text) returns (res: Result<Text>)
    ensures res.Ok? <==> Latin1(str)
    ensures res.Ok? ==> res.value == Encode(str)
  {
    var output: Text := [];
    var block, k, padding := 0, 0, false;
    ghost var g: nat, r: nat := 0, 0;
    while k / 4 < |str| || k % 4 != 0
      invariant r < 4 && k == 12 * g + 3 * r && Encoding(str, g, r, block, output)
      invariant k / 4 == Last(g, r) && k % 4 == if r == 0 then 0 else 4 - r
      invariant padding ==> Last(g, r) >= |str|
      decreases |str| - 3 * g, 4 - r
    {
      if k / 4 >= |str| {
        padding := true;
      }
      ghost var g', r' := if r == 3 then g + 1 else g, if r == 3 then 0 else r + 1;
      Quarters(g', r');
      k := k + 3;
      if k / 4 < |str| && str[k / 4] > 0xff {
        assert !Latin1(str);
        return Err("btoa");
      }
      EncodingNext(str, g, r, block, output);
      block := ShiftIn(block, if k / 4 < |str| then str[k / 4] else 0);
      SixBitsTaken(block, r);
      assert k % 4 == 3 - r;
      output := output + Written(SixBits(block, k % 4), padding);
      g, r := g', r';
    }
    EncodingDone(str, g, block, output);
    return Ok(output);
  }

  // ----- atob -----

  function Strip(t: Text): Text {
    if t != [] && t[|t| - 1] == Pad then Strip(t[..|t| - 1]) else t
  }

  // The table positions of a text; characters outside the table are passed over.
  function Values(t: Text): (vs: seq<int>)
    ensures forall j :: 0 <= j < |vs| ==> 0 <= vs[j] <= 64
  {
    if t == [] then []
    else
      var rest := Values(t[..|t| - 1]);
      var v := IndexOf(t[|t| - 1]);
      if v == -1 then rest else rest + [v]
  }

  // Digits of six bits, four to a number of 24 bits; a last group yields the octets it fills.
  function Octets(vs: seq<int>): Text {
    if |vs| < 2 then []
    else if |vs| == 2 then [High(vs[0], vs[1])]
    else if |vs| == 3 then [High(vs[0], vs[1]), Middle(vs[1], vs[2])]
    else [High(vs[0], vs[1]), Middle(vs[1], vs[2]), Low(vs[2], vs[3])] + Octets(vs[4..])
  }

  function High(v0: int, v1: int): Code {
    (v0 * 4 + v1 / 16) % 256
  }

  function Middle(v1: int, v2: int): Code {
    (v1 * 16 + v2 / 4) % 256
  }

  function Low(v2: int, v3: int): Code {
    (v2 * 64 + v3) % 256
  }

  function Decode(t: Text): Result<Text> {
    if |Strip(t)| % 4 == 1 then Err("atob")
    else Ok(Octets(Values(Strip(t))))
  }

  // The number the last, unfinished group makes up so far.
  function Number(vs: seq<int>): int {
    if vs == [] then 0
    else if |vs| % 4 == 1 then vs[|vs| - 1]
    else Number(vs[..|vs| - 1]) * 64 + vs[|vs| - 1]
  }

  lemma {:induction false} NumberGroup(vs: seq<int>)
    requires |vs| >= 5
    ensures Number(vs) == Number(vs[4..])
  {
    if |vs| % 4 != 1 {
      assert vs[..|vs| - 1][4..] == vs[4..][..|vs| - 5];
      NumberGroup(vs[..|vs| - 1]);
    }
  }

  lemma NumberSnoc(vs: seq<int>, v: int)
    ensures Number(vs + [v]) == if |vs| % 4 == 0 then v else Number(vs) * 64 + v
  {
    assert (vs + [v])[..|vs|] == vs;
    Mod4(|vs|);
  }

  lemma Mod4(n: nat)
    ensures (n + 1) % 4 == 1 <==> n % 4 == 0
  {
  }

  // (-2 * bc) & 6
  function Shift(bc: nat): (shift: nat)
    ensures shift <= 8 && shift % 2 == 0
  {
    (-2 * bc) % 8
  }

  // The octets that one digit more completes: at most one.
  function Grown(vs: seq<int>, v: int): Text {
    if |vs| % 4 == 0 then [] else [ShiftRight(Number(vs + [v]), Shift(|vs| + 1)) % 256]
  }

  lemma Number2(a: int, b: int)
    ensures Number([a, b]) == a * 64 + b
  {
    assert [a, b][..1] == [a];
  }

  lemma Number3(a: int, b: int, c: int)
    ensures Number([a, b, c]) == a * 4096 + b * 64 + c
  {
    assert [a, b, c][..2] == [a, b];
    Number2(a, b);
  }

  lemma Number4(a: int, b: int, c: int, d: int)
    ensures Number([a, b, c, d]) == a * 262144 + b * 4096 + c * 64 + d
  {
    assert [a, b, c, d][..3] == [a, b, c];
    Number3(a, b, c);
  }

  lemma Skip256(q: int, x: int)
    ensures (q * 256 + x) % 256 == x % 256
  {
  }

  // Within the first group.
  lemma Grow1(a: int, b: int)
    ensures Octets([a, b]) == Octets([a]) + Grown([a], b)
  {
    assert [a] + [b] == [a, b] && Shift(2) == 4;
    Number2(a, b);
    assert (a * 64 + b) / 16 == a * 4 + b / 16;
  }

  lemma Grow2(a: int, b: int, c: int)
    ensures Octets([a, b, c]) == Octets([a, b]) + Grown([a, b], c)
  {
    assert [a, b] + [c] == [a, b, c] && Shift(3) == 2;
    Number3(a, b, c);
    assert (a * 4096 + b * 64 + c) / 4 == a * 4 * 256 + (b * 16 + c / 4);
    Skip256(a * 4, b * 16 + c / 4);
  }

  lemma Grow3(a: int, b: int, c: int, d: int)
    ensures Octets([a, b, c, d]) == Octets([a, b, c]) + Grown([a, b, c], d)
  {
    assert [a, b, c] + [d] == [a, b, c, d] && Shift(4) == 0;
    Number4(a, b, c, d);
    assert a * 262144 + b * 4096 + c * 64 + d == (a * 1024 + b * 16) * 256 + (c * 64 + d);
    Skip256(a * 1024 + b * 16, c * 64 + d);
    assert Octets([a, b, c, d][4..]) == [];
  }

  lemma Listed(vs: seq<int>, v: int)
    ensures |vs| == 0 ==> vs == [] && vs + [v] == [v]
    ensures |vs| == 1 ==> vs == [vs[0]] && vs + [v] == [vs[0], v]
    ensures |vs| == 2 ==> vs == [vs[0], vs[1]] && vs + [v] == [vs[0], vs[1], v]
    ensures |vs| == 3 ==> vs == [vs[0], vs[1], vs[2]] && vs + [v] == [vs[0], vs[1], vs[2], v]
  {
  }

  lemma OctetsGrow(vs: seq<int>, v: int)
    requires |vs| < 4
    ensures Octets(vs + [v]) == Octets(vs) + Grown(vs, v)
  {
    Listed(vs, v);
    match |vs| {
      case 0 =>
      case 1 => Grow1(vs[0], v);
      case 2 => Grow2(vs[0], vs[1], v);
      case _ => Grow3(vs[0], vs[1], vs[2], v);
    }
  }

  lemma Periods(n: nat)
    ensures (n + 4) % 4 == n % 4 && Shift(n + 4 + 1) == Shift(n + 1)
  {
    assert -2 * (n + 4 + 1) == -2 * (n + 1) - 8;
  }

  lemma GrownGroup(vs: seq<int>, v: int)
    requires |vs| >= 4
    ensures Grown(vs, v) == Grown(vs[4..], v)
  {
    assert (vs + [v])[4..] == vs[4..] + [v];
    NumberGroup(vs + [v]);
    Periods(|vs[4..]|);
  }

  lemma {:induction false} OctetsSnoc(vs: seq<int>, v: int)
    ensures Octets(vs + [v]) == Octets(vs) + Grown(vs, v)
  {
    if |vs| < 4 {
      OctetsGrow(vs, v);
    } else {
      GrownGroup(vs, v);
      assert (vs + [v])[4..] == vs[4..] + [v];
      OctetsSnoc(vs[4..], v);
    }
  }

  // The number of an unfinished group fits in 31 bits, so bs >> shift does not wrap.
  lemma {:induction false} NumberBound(vs: seq<int>)
    requires forall j :: 0 <= j < |vs| ==> 0 <= vs[j] <= 64
    ensures 0 <= Number(vs) < 0x8000_0000
    ensures |vs| % 4 == 1 ==> Number(vs) <= 64
    ensures |vs| % 4 == 2 ==> Number(vs) <= 64 * 65
    ensures |vs| % 4 == 3 ==> Number(vs) <= 64 * (64 * 65 + 1)
  {
    if vs != [] && |vs| % 4 != 1 {
      NumberBound(vs[..|vs| - 1]);
    }
  }

  lemma ValuesNext(t: Text, i: nat)
    requires i < |t|
    ensures Values(t[..i + 1]) == Values(t[..i]) + if IndexOf(t[i]) == -1 then [] else [IndexOf(t[i])]
  {
    assert t[..i + 1][..i] == t[..i];
  }

  /**
   * atob. Drops the padding at the end, passes over characters outside the table, and collects six
   * bits a character; fails exactly when what is left after the padding has length 1 modulo 4.
   */
  method Atob(input: Text) returns (r: Result<Text>)
    ensures r == Decode(input)
  {
    var str := input;
    while str != [] && str[|str| - 1] == Pad
      invariant Strip(str) == Strip(input)
    {
      str := str[..|str| - 1];
    }
    if |str| % 4 == 1 {
      return Err("atob");
    }
    var output: Text, bc, bs, i := [], 0, 0, 0;
    ghost var vs: seq<int> := [];
    while i < |str|
      invariant i <= |str| && vs == Values(str[..i])
      invariant bc == |vs| && (bc > 0 ==> bs == Number(vs))
      invariant output == Octets(vs)
    {
      var buffer := IndexOf(str[i]);
      ValuesNext(str, i);
      i := i + 1;
      if buffer != -1 {
        OctetsSnoc(vs, buffer);
        NumberSnoc(vs, buffer);
        vs := vs + [buffer];
        bs := if bc % 4 != 0 then bs * 64 + buffer else buffer;
        bc := bc + 1;
        NumberBound(vs);
        assert bs == Number(vs);
        if (bc - 1) % 4 != 0 {
          output := output + [ShiftRight(bs, Shift(bc)) % 256];
        }
      }
    }
    assert str[..i] == str;
    return Ok(output);
  }

  // ----- Round trip -----

  lemma {:induction false} StripConcat(a: Text, b: Text)
    requires a != [] && a[|a| - 1] != Pad
    ensures Strip(a + b) == a + Strip(b)
    decreases |b|
  {
    if b == [] {
      assert a + b == a;
    } else if b[|b| - 1] == Pad {
      assert (a + b)[..|a + b| - 1] == a + b[..|b| - 1];
      StripConcat(a, b[..|b| - 1]);
    }
  }

  lemma {:induction false} ValuesConcat(a: Text, b: Text)
    ensures Values(a + b) == Values(a) + Values(b)
    decreases |b|
  {
    if b == [] {
      assert a + b == a;
    } else {
      assert (a + b)[..|a + b| - 1] == a + b[..|b| - 1];
      ValuesConcat(a, b[..|b| - 1]);
    }
  }

  lemma Values2(v0: int, v1: int)
    requires 0 <= v0 < 64 && 0 <= v1 < 64
    ensures Values([Symbol(v0), Symbol(v1)]) == [v0, v1]
  {
    assert [Symbol(v0), Symbol(v1)][..1] == [Symbol(v0)];
    assert Values([Symbol(v0)][..0]) == [];
  }

  lemma Values3(v0: int, v1: int, v2: int)
    requires 0 <= v0 < 64 && 0 <= v1 < 64 && 0 <= v2 < 64
    ensures Values([Symbol(v0), Symbol(v1), Symbol(v2)]) == [v0, v1, v2]
  {
    assert [Symbol(v0), Symbol(v1), Symbol(v2)][..2] == [Symbol(v0), Symbol(v1)];
    Values2(v0, v1);
  }

  lemma Values4(v0: int, v1: int, v2: int, v3: int)
    requires 0 <= v0 < 64 && 0 <= v1 < 64 && 0 <= v2 < 64 && 0 <= v3 < 64
    ensures Values([Symbol(v0), Symbol(v1), Symbol(v2), Symbol(v3)]) == [v0, v1, v2, v3]
  {
    assert [Symbol(v0), Symbol(v1), Symbol(v2), Symbol(v3)][..3] == [Symbol(v0), Symbol(v1), Symbol(v2)];
    Values3(v0, v1, v2);
  }

  lemma OctetsGroup(v0: int, v1: int, v2: int, v3: int, more: seq<int>)
    ensures Octets([v0, v1, v2, v3] + more) == [High(v0, v1), Middle(v1, v2), Low(v2, v3)] + Octets(more)
  {
    assert ([v0, v1, v2, v3] + more)[4..] == more;
  }

  lemma StripGroup(v0: int, v1: int, v2: int, v3: int, rest: Text)
    requires SixBit(v0) && SixBit(v1) && SixBit(v2) && SixBit(v3)
    ensures var t := [Symbol(v0), Symbol(v1), Symbol(v2), Symbol(v3)] + rest;
            |Strip(t)| == 4 + |Strip(rest)| && Values(Strip(t)) == [v0, v1, v2, v3] + Values(Strip(rest))
  {
    var t := [Symbol(v0), Symbol(v1), Symbol(v2), Symbol(v3)];
    StripConcat(t, rest);
    ValuesConcat(t, Strip(rest));
    Values4(v0, v1, v2, v3);
  }

  // Decoding four digits, three digits or two, whatever they are.
  lemma Decode4(v0: int, v1: int, v2: int, v3: int, rest: Text)
    requires SixBit(v0) && SixBit(v1) && SixBit(v2) && SixBit(v3) && Decode(rest).Ok?
    ensures Decode([Symbol(v0), Symbol(v1), Symbol(v2), Symbol(v3)] + rest)
         == Ok([High(v0, v1), Middle(v1, v2), Low(v2, v3)] + Decode(rest).value)
  {
    StripGroup(v0, v1, v2, v3, rest);
    OctetsGroup(v0, v1, v2, v3, Values(Strip(rest)));
    assert (4 + |Strip(rest)|) % 4 == |Strip(rest)| % 4;
  }

  lemma Decode3(v0: int, v1: int, v2: int)
    requires SixBit(v0) && SixBit(v1) && SixBit(v2)
    ensures Decode([Symbol(v0), Symbol(v1), Symbol(v2), Pad]) == Ok([High(v0, v1), Middle(v1, v2)])
  {
    var t := [Symbol(v0), Symbol(v1), Symbol(v2), Pad];
    assert t[..3] == [Symbol(v0), Symbol(v1), Symbol(v2)] && Strip(t) == Strip(t[..3]) == t[..3];
    Values3(v0, v1, v2);
  }

  lemma Decode2(v0: int, v1: int)
    requires SixBit(v0) && SixBit(v1)
    ensures Decode([Symbol(v0), Symbol(v1), Pad, Pad]) == Ok([High(v0, v1)])
  {
    var t := [Symbol(v0), Symbol(v1), Pad, Pad];
    assert t[..3] == [Symbol(v0), Symbol(v1), Pad] && t[..3][..2] == [Symbol(v0), Symbol(v1)];
    assert Strip(t) == Strip(t[..3]) == [Symbol(v0), Symbol(v1)];
    Values2(v0, v1);
  }

  // The digits of three octets give the octets back.
  lemma Mod256(q: int, x: int)
    requires Octet(x)
    ensures (q * 256 + x) % 256 == x
  {
  }

  lemma HighBack(a: int, b: int)
    requires Octet(a) && Octet(b)
    ensures High(Digit0(a), Digit1(a, b)) == a
  {
    assert (a % 4 * 16 + b / 16) / 16 == a % 4;
  }

  lemma MiddleBack(a: int, b: int, c: int)
    requires Octet(a) && Octet(b) && Octet(c)
    ensures Middle(Digit1(a, b), Digit2(b, c)) == b
  {
    assert (b % 16 * 4 + c / 64) / 4 == b % 16;
    assert (a % 4 * 16 + b / 16) * 16 + b % 16 == a % 4 * 256 + b;
    Mod256(a % 4, b);
  }

  lemma LowBack(b: int, c: int)
    requires Octet(b) && Octet(c)
    ensures Low(Digit2(b, c), Digit3(c)) == c
  {
    assert (b % 16 * 4 + c / 64) * 64 + c % 64 == b % 16 * 256 + c;
    Mod256(b % 16, c);
  }

  lemma DigitsBack(a: int, b: int, c: int)
    requires Octet(a) && Octet(b) && Octet(c)
    ensures High(Digit0(a), Digit1(a, b)) == a && Middle(Digit1(a, b), Digit2(b, c)) == b &&
              Low(Digit2(b, c), Digit3(c)) == c
  {
    HighBack(a, b);
    MiddleBack(a, b, c);
    LowBack(b, c);
  }

  lemma Encode1Octet(a: int)
    requires Octet(a)
    ensures Encode([a]) == [Symbol(Digit0(a)), Symbol(Digit1(a, 0)), Pad, Pad]
  {
  }

  lemma Encode2Octets(a: int, b: int)
    requires Octet(a) && Octet(b)
    ensures Encode([a, b]) == [Symbol(Digit0(a)), Symbol(Digit1(a, b)), Symbol(Digit2(b, 0)), Pad]
  {
  }

  lemma Decode3Octets(a: int, b: int, c: int, rest: Text)
    requires Octet(a) && Octet(b) && Octet(c) && Decode(rest).Ok?
    ensures Decode(Digits(a, b, c) + rest) == Ok([a, b, c] + Decode(rest).value)
  {
    Decode4(Digit0(a), Digit1(a, b), Digit2(b, c), Digit3(c), rest);
    DigitsBack(a, b, c);
  }

  /** atob undoes btoa, for every Latin-1 string. */
  lemma {:induction false} DecodeEncode(s: Text)
    requires Latin1(s)
    ensures Decode(Encode(s)) == Ok(s)
  {
    if |s| == 0 {
      assert Strip(Encode(s)) == [];
    } else if |s| == 1 {
      assert s == [s[0]];
      Encode1Octet(s[0]);
      Decode2(Digit0(s[0]), Digit1(s[0], 0));
      DigitsBack(s[0], 0, 0);
    } else if |s| == 2 {
      assert s == [s[0], s[1]];
      Encode2Octets(s[0], s[1]);
      Decode3(Digit0(s[0]), Digit1(s[0], s[1]), Digit2(s[1], 0));
      DigitsBack(s[0], s[1], 0);
    } else {
      DecodeEncode(s[3..]);
      Decode3Octets(s[0], s[1], s[2], Encode(s[3..]));
      assert s == [s[0], s[1], s[2]] + s[3..];
    }
  }

  // ----- The texts btoa writes -----

  predicate IsDigit(c: Code) {
    SixBit(IndexOf(c))
  }

  // Groups of four digits; the last may be padded, and then its unused bits are zero.
  predicate Canonical(t: Text) {
    || t == []
    || (|t| == 4 && t[2] == t[3] == Pad && IsDigit(t[0]) && IsDigit(t[1]) && IndexOf(t[1]) % 16 == 0)
    || (|t| == 4 && t[3] == Pad && IsDigit(t[0]) && IsDigit(t[1]) && IsDigit(t[2]) && IndexOf(t[2]) % 4 == 0)
    || (|t| >= 4 && IsDigit(t[0]) && IsDigit(t[1]) && IsDigit(t[2]) && IsDigit(t[3]) && Canonical(t[4..]))
  }

  lemma ZeroBits(a: int)
    requires Octet(a)
    ensures Digit1(a, 0) % 16 == 0 && Digit2(a, 0) % 4 == 0
  {
  }

  lemma Canonical1(v0: int, v1: int)
    requires SixBit(v0) && SixBit(v1) && v1 % 16 == 0
    ensures Canonical([Symbol(v0), Symbol(v1), Pad, Pad])
  {
  }

  lemma Canonical2(v0: int, v1: int, v2: int)
    requires SixBit(v0) && SixBit(v1) && SixBit(v2) && v2 % 4 == 0
    ensures Canonical([Symbol(v0), Symbol(v1), Symbol(v2), Pad])
  {
  }

  lemma Canonical3(v0: int, v1: int, v2: int, v3: int, rest: Text)
    requires SixBit(v0) && SixBit(v1) && SixBit(v2) && SixBit(v3) && Canonical(rest)
    ensures Canonical([Symbol(v0), Symbol(v1), Symbol(v2), Symbol(v3)] + rest)
  {
    assert ([Symbol(v0), Symbol(v1), Symbol(v2), Symbol(v3)] + rest)[4..] == rest;
  }

  lemma {:induction false} EncodeCanonical(s: Text)
    requires Latin1(s)
    ensures Canonical(Encode(s))
  {
    if |s| == 1 {
      assert s == [s[0]];
      Encode1Octet(s[0]);
      ZeroBits(s[0]);
      Canonical1(Digit0(s[0]), Digit1(s[0], 0));
    } else if |s| == 2 {
      assert s == [s[0], s[1]];
      Encode2Octets(s[0], s[1]);
      ZeroBits(s[1]);
      Canonical2(Digit0(s[0]), Digit1(s[0], s[1]), Digit2(s[1], 0));
    } else if |s| > 2 {
      EncodeCanonical(s[3..]);
      Canonical3(Digit0(s[0]), Digit1(s[0], s[1]), Digit2(s[1], s[2]), Digit3(s[2]), Encode(s[3..]));
    }
  }

  // Digits come from octets, if the bits they leave unused are zero.
  lemma Undigits(v0: int, v1: int, v2: int, v3: int) returns (a: int, b: int, c: int)
    requires SixBit(v0) && SixBit(v1) && SixBit(v2) && SixBit(v3)
    ensures Octet(a) && Octet(b) && Octet(c)
    ensures Digit0(a) == v0 && Digit1(a, b) == v1 && Digit2(b, c) == v2 && Digit3(c) == v3
    ensures v3 == 0 && v2 % 4 == 0 ==> c == 0
  {
    a, b, c := v0 * 4 + v1 / 16, v1 % 16 * 16 + v2 / 4, v2 % 4 * 64 + v3;
  }

  lemma Undigits1(v0: int, v1: int) returns (a: int)
    requires SixBit(v0) && SixBit(v1) && v1 % 16 == 0
    ensures Octet(a) && Digit0(a) == v0 && Digit1(a, 0) == v1
  {
    a := v0 * 4 + v1 / 16;
  }

  lemma Encoded1(v0: int, v1: int) returns (s: Text)
    requires SixBit(v0) && SixBit(v1) && v1 % 16 == 0
    ensures Latin1(s) && Encode(s) == [Symbol(v0), Symbol(v1), Pad, Pad]
  {
    var a := Undigits1(v0, v1);
    Encode1Octet(a);
    return [a];
  }

  lemma Encoded2(v0: int, v1: int, v2: int) returns (s: Text)
    requires SixBit(v0) && SixBit(v1) && SixBit(v2) && v2 % 4 == 0
    ensures Latin1(s) && Encode(s) == [Symbol(v0), Symbol(v1), Symbol(v2), Pad]
  {
    var a, b, c := Undigits(v0, v1, v2, 0);
    Encode2Octets(a, b);
    return [a, b];
  }

  lemma EncodedWith1(t: Text) returns (s: Text)
    requires |t| == 4 && t[2] == t[3] == Pad && IsDigit(t[0]) && IsDigit(t[1]) && IndexOf(t[1]) % 16 == 0
    ensures Latin1(s) && Encode(s) == t
  {
    s := Encoded1(IndexOf(t[0]), IndexOf(t[1]));
    assert t == [t[0], t[1], Pad, Pad];
  }

  lemma EncodedWith2(t: Text) returns (s: Text)
    requires |t| == 4 && t[3] == Pad && IsDigit(t[0]) && IsDigit(t[1]) && IsDigit(t[2]) && IndexOf(t[2]) % 4 == 0
    ensures Latin1(s) && Encode(s) == t
  {
    s := Encoded2(IndexOf(t[0]), IndexOf(t[1]), IndexOf(t[2]));
    assert t == [t[0], t[1], t[2], Pad];
  }

  lemma EncodedWith3(t: Text, rest: Text) returns (s: Text)
    requires |t| >= 4 && IsDigit(t[0]) && IsDigit(t[1]) && IsDigit(t[2]) && IsDigit(t[3])
    requires Latin1(rest) && Encode(rest) == t[4..]
    ensures Latin1(s) && Encode(s) == t
  {
    var a, b, c := Undigits(IndexOf(t[0]), IndexOf(t[1]), IndexOf(t[2]), IndexOf(t[3]));
    s := [a, b, c] + rest;
    assert s[3..] == rest;
    assert t == [t[0], t[1], t[2], t[3]] + t[4..];
  }

  lemma {:induction false} CanonicalIsEncoded(t: Text) returns (s: Text)
    requires Canonical(t)
    ensures Latin1(s) && Encode(s) == t
    decreases |t|
  {
    if t == [] {
      s := [];
    } else if |t| == 4 && t[2] == t[3] == Pad {
      s := EncodedWith1(t);
    } else if |t| == 4 && t[3] == Pad {
      s := EncodedWith2(t);
    } else {
      var rest := CanonicalIsEncoded(t[4..]);
      s := EncodedWith3(t, rest);
    }
  }

  /** btoa undoes atob on exactly the canonical texts. */
  lemma EncodeDecodeIffCanonical(t: Text)
    ensures Canonical(t) <==> Decode(t).Ok? && Latin1(Decode(t).value) && Encode(Decode(t).value) == t
  {
    if Canonical(t) {
      var s := CanonicalIsEncoded(t);
      DecodeEncode(s);
    } else if Decode(t).Ok? && Latin1(Decode(t).value) && Encode(Decode(t).value) == t {
      EncodeCanonical(Decode(t).value);
    }
  }
}
