/**
 Printing commands: the number of decimal digits by table, and the RESP text of an argument list.
 */
module Commands {
  import opened Decimal
  import opened Resp

  // ---- counting digits

  /** For each bit b: the largest number with highest bit b that has as many digits as 2^b, and
      that number of digits. */
  function BitTable(i: nat): nat
    requires i < 128
  {
    if i < 16 then (
      match i
      case 0 => 1 case 1 => 1 case 2 => 3 case 3 => 1
      case 4 => 7 case 5 => 1 case 6 => 9 case 7 => 1
      case 8 => 31 case 9 => 2 case 10 => 63 case 11 => 2
      case 12 => 99 case 13 => 2 case 14 => 255 case _ => 3)
    else if i < 32 then (
      match i
      case 16 => 511 case 17 => 3 case 18 => 999 case 19 => 3
      case 20 => 2047 case 21 => 4 case 22 => 4095 case 23 => 4
      case 24 => 8191 case 25 => 4 case 26 => 9999 case 27 => 4
      case 28 => 32767 case 29 => 5 case 30 => 65535 case _ => 5)
    else if i < 48 then (
      match i
      case 32 => 99999 case 33 => 5 case 34 => 262143 case 35 => 6
      case 36 => 524287 case 37 => 6 case 38 => 999999 case 39 => 6
      case 40 => 2097151 case 41 => 7 case 42 => 4194303 case 43 => 7
      case 44 => 8388607 case 45 => 7 case 46 => 9999999 case _ => 7)
    else if i < 64 then (
      match i
      case 48 => 33554431 case 49 => 8 case 50 => 67108863 case 51 => 8
      case 52 => 99999999 case 53 => 8 case 54 => 268435455 case 55 => 9
      case 56 => 536870911 case 57 => 9 case 58 => 999999999 case 59 => 9
      case 60 => 2147483647 case 61 => 10 case 62 => 4294967295 case _ => 10)
    else if i < 80 then (
      match i
      case 64 => 8589934591 case 65 => 10 case 66 => 9999999999 case 67 => 10
      case 68 => 34359738367 case 69 => 11 case 70 => 68719476735 case 71 => 11
      case 72 => 99999999999 case 73 => 11 case 74 => 274877906943 case 75 => 12
      case 76 => 549755813887 case 77 => 12 case 78 => 999999999999 case _ => 12)
    else if i < 96 then (
      match i
      case 80 => 2199023255551 case 81 => 13 case 82 => 4398046511103 case 83 => 13
      case 84 => 8796093022207 case 85 => 13 case 86 => 9999999999999 case 87 => 13
      case 88 => 35184372088831 case 89 => 14 case 90 => 70368744177663 case 91 => 14
      case 92 => 99999999999999 case 93 => 14 case 94 => 281474976710655 case _ => 15)
    else if i < 112 then (
      match i
      case 96 => 562949953421311 case 97 => 15 case 98 => 999999999999999 case 99 => 15
      case 100 => 2251799813685247 case 101 => 16 case 102 => 4503599627370495 case 103 => 16
      case 104 => 9007199254740991 case 105 => 16 case 106 => 9999999999999999 case 107 => 16
      case 108 => 36028797018963967 case 109 => 17 case 110 => 72057594037927935 case _ => 17)
    else (
      match i
      case 112 => 99999999999999999 case 113 => 17 case 114 => 288230376151711743 case 115 => 18
      case 116 => 576460752303423487 case 117 => 18 case 118 => 999999999999999999 case 119 => 18
      case 120 => 2305843009213693951 case 121 => 19 case 122 => 4611686018427387903 case 123 => 19
      case 124 => 9223372036854775807 case 125 => 19 case 126 => 9999999999999999999 case _ => 19)
  }

  /** The position of the highest set bit of x, which is 63 - countl_zero(x): the search starts
      at bit i, whose value is p. */
  function HighBit(x: nat, i: nat, p: nat): (b: nat)
    requires 1 <= p <= x
    decreases x - p
  {
    if x < 2 * p then i else HighBit(x, i + 1, 2 * p)
  }

  const TWO64: nat := 0x1_0000_0000_0000_0000

  function CountDigits(x: nat): nat
    requires x < TWO64
  {
    if x == 0 then 1
    else
      var b := HighBit(x, 0, 1);
      if b < 64 then BitTable(2 * b + 1) + (if x > BitTable(2 * b) then 1 else 0) else 0
  }

  function Pow10(d: nat): nat { if d == 0 then 1 else 10 * Pow10(d - 1) }

  lemma {:induction false} DigitsLength(x: nat, d: nat)
    requires d > 0 && x < Pow10(d) && (d > 1 ==> Pow10(d - 1) <= x)
    ensures |Digits(x)| == d
  {
    if d > 1 {
      DigitsLength(x / 10, d - 1);
    }
  }

  function Table(): (t: seq<nat>)
    ensures |t| == 128
  {
    seq(128, i requires 0 <= i < 128 => BitTable(i))
  }

  /** n rows of a table from row i on are right: p is 2^i, which has d digits, and q is 10^d. */
  predicate RowsOk(t: seq<nat>, i: nat, n: nat, p: nat, d: nat, q: nat)
    decreases n
  {
    n == 0 || (
      && 2 * i + 1 < |t| && t[2 * i] == (if q < 2 * p then q else 2 * p) - 1 && t[2 * i + 1] == d
      && if 2 * p < q then RowsOk(t, i + 1, n - 1, 2 * p, d, q) else RowsOk(t, i + 1, n - 1, 2 * p, d + 1, 10 * q))
  }

  function Double(p: nat, n: nat): nat
    decreases n
  {
    if n == 0 then p else Double(2 * p, n - 1)
  }

  lemma {:induction false} Rows0()
    ensures RowsOk(Table(), 0, 8, 0x1, 1, 10)
  {
    assert RowsOk(Table(), 4, 4, 0x10, 2, 100);
  }

  lemma {:induction false} Rows8()
    ensures RowsOk(Table(), 8, 8, 0x100, 3, 1_000)
  {
    assert RowsOk(Table(), 12, 4, 0x1000, 4, 10_000);
  }

  lemma {:induction false} Rows16()
    ensures RowsOk(Table(), 16, 8, 0x10000, 5, 100_000)
  {
    assert RowsOk(Table(), 20, 4, 0x100000, 7, 10_000_000);
  }

  lemma {:induction false} Rows24()
    ensures RowsOk(Table(), 24, 8, 0x1000000, 8, 100_000_000)
  {
    assert RowsOk(Table(), 28, 4, 0x10000000, 9, 1_000_000_000);
  }

  lemma {:induction false} Rows32()
    ensures RowsOk(Table(), 32, 8, 0x100000000, 10, 10_000_000_000)
  {
    assert RowsOk(Table(), 36, 4, 0x1000000000, 11, 100_000_000_000);
  }

  lemma {:induction false} Rows40()
    ensures RowsOk(Table(), 40, 8, 0x10000000000, 13, 10_000_000_000_000)
  {
    assert RowsOk(Table(), 44, 4, 0x100000000000, 14, 100_000_000_000_000);
  }

  lemma {:induction false} Rows48()
    ensures RowsOk(Table(), 48, 8, 0x1000000000000, 15, 1_000_000_000_000_000)
  {
    assert RowsOk(Table(), 52, 4, 0x10000000000000, 16, 10_000_000_000_000_000);
  }

  lemma {:induction false} Rows56()
    ensures RowsOk(Table(), 56, 8, 0x100000000000000, 17, 100_000_000_000_000_000)
  {
    assert RowsOk(Table(), 60, 4, 0x1000000000000000, 19, 10_000_000_000_000_000_000);
  }

  /** Right rows give the exact number of digits of every x whose highest bit they cover. */
  lemma {:induction false} RowsCount(t: seq<nat>, i: nat, n: nat, p: nat, d: nat, q: nat, x: nat)
    requires RowsOk(t, i, n, p, d, q) && d > 0 && q == Pow10(d) && Pow10(d - 1) <= p < q
    requires 1 <= p <= x < Double(p, n)
    ensures var b := HighBit(x, i, p);
            b < i + n && 2 * b + 1 < |t| && |Digits(x)| == t[2 * b + 1] + (if x > t[2 * b] then 1 else 0)
    decreases n
  {
    if x < 2 * p {
      if x < q {
        DigitsLength(x, d);
      } else {
        assert Pow10(d + 1) == 10 * q;
        DigitsLength(x, d + 1);
      }
    } else if 2 * p < q {
      RowsCount(t, i + 1, n - 1, 2 * p, d, q, x);
    } else {
      assert Pow10(d + 1) == 10 * q;
      RowsCount(t, i + 1, n - 1, 2 * p, d + 1, 10 * q, x);
    }
  }

  lemma {:induction false} DoubleGrows(p: nat, n: nat)
    ensures Double(p, n) >= p
    decreases n
  {
    if n > 0 {
      DoubleGrows(2 * p, n - 1);
    }
  }

  lemma {:induction false} HighBitSkip(x: nat, i: nat, p: nat, n: nat)
    requires 1 <= p && Double(p, n) <= x
    ensures 1 <= p <= Double(p, n) && HighBit(x, i, p) == HighBit(x, i + n, Double(p, n))
    decreases n
  {
    DoubleGrows(p, n);
    if n > 0 {
      DoubleGrows(2 * p, n - 1);
      HighBitSkip(x, i + 1, 2 * p, n - 1);
    }
  }

  /** What the rows of t say about the number of digits of x. */
  ghost predicate RowSays(t: seq<nat>, x: nat, digits: nat)
    requires |t| == 128 && x > 0
  {
    var b := HighBit(x, 0, 1);
    b < 64 && digits == t[2 * b + 1] + (if x > t[2 * b] then 1 else 0)
  }

  lemma {:induction false} ByRows(t: seq<nat>, i: nat, n: nat, p: nat, d: nat, q: nat, x: nat)
    requires |t| == 128 && RowsOk(t, i, n, p, d, q) && d > 0 && q == Pow10(d) && Pow10(d - 1) <= p < q && i + n <= 64
    requires 1 <= p <= x < Double(p, n) && HighBit(x, 0, 1) == HighBit(x, i, p)
    ensures RowSays(t, x, |Digits(x)|)
  {
    RowsCount(t, i, n, p, d, q, x);
  }

  lemma {:induction false} CountByTable(x: nat, digits: nat)
    requires 0 < x < TWO64 && RowSays(Table(), x, digits)
    ensures CountDigits(x) == digits
  {
    TableIs(HighBit(x, 0, 1));
  }

  lemma {:induction false} TableIs(b: nat)
    requires b < 64
    ensures Table()[2 * b] == BitTable(2 * b) && Table()[2 * b + 1] == BitTable(2 * b + 1)
  {
  }

  lemma {:induction false} PowersOfTen()
    ensures Pow10(0) == 1
    ensures Pow10(1) == 10
    ensures Pow10(2) == 100
    ensures Pow10(3) == 1_000
    ensures Pow10(4) == 10_000
    ensures Pow10(5) == 100_000
    ensures Pow10(6) == 1_000_000
    ensures Pow10(7) == 10_000_000
    ensures Pow10(8) == 100_000_000
    ensures Pow10(9) == 1_000_000_000
    ensures Pow10(10) == 10_000_000_000
    ensures Pow10(11) == 100_000_000_000
    ensures Pow10(12) == 1_000_000_000_000
    ensures Pow10(13) == 10_000_000_000_000
    ensures Pow10(14) == 100_000_000_000_000
    ensures Pow10(15) == 1_000_000_000_000_000
    ensures Pow10(16) == 10_000_000_000_000_000
    ensures Pow10(17) == 100_000_000_000_000_000
  {
  }

  lemma {:induction false} Doubles()
    ensures Double(0x1, 8) == 0x100
    ensures Double(0x100, 8) == 0x10000
    ensures Double(0x10000, 8) == 0x1000000
    ensures Double(0x1000000, 8) == 0x100000000
    ensures Double(0x100000000, 8) == 0x10000000000
    ensures Double(0x10000000000, 8) == 0x1000000000000
    ensures Double(0x1000000000000, 8) == 0x100000000000000
  {
  }

  /** The search for the highest bit passes every eighth bit below it. */
  lemma {:induction false} HighBitBytes(x: nat)
    ensures x >= 0x100 ==> HighBit(x, 0, 1) == HighBit(x, 8, 0x100)
    ensures x >= 0x10000 ==> HighBit(x, 0, 1) == HighBit(x, 16, 0x10000)
    ensures x >= 0x1000000 ==> HighBit(x, 0, 1) == HighBit(x, 24, 0x1000000)
    ensures x >= 0x100000000 ==> HighBit(x, 0, 1) == HighBit(x, 32, 0x100000000)
    ensures x >= 0x10000000000 ==> HighBit(x, 0, 1) == HighBit(x, 40, 0x10000000000)
    ensures x >= 0x1000000000000 ==> HighBit(x, 0, 1) == HighBit(x, 48, 0x1000000000000)
    ensures x >= 0x100000000000000 ==> HighBit(x, 0, 1) == HighBit(x, 56, 0x100000000000000)
  {
    Doubles();
    if x >= 0x100 {
      HighBitSkip(x, 0, 0x1, 8);
    }
    if x >= 0x10000 {
      HighBitSkip(x, 8, 0x100, 8);
    }
    if x >= 0x1000000 {
      HighBitSkip(x, 16, 0x10000, 8);
    }
    if x >= 0x100000000 {
      HighBitSkip(x, 24, 0x1000000, 8);
    }
    if x >= 0x10000000000 {
      HighBitSkip(x, 32, 0x100000000, 8);
    }
    if x >= 0x1000000000000 {
      HighBitSkip(x, 40, 0x10000000000, 8);
    }
    if x >= 0x100000000000000 {
      HighBitSkip(x, 48, 0x1000000000000, 8);
    }
  }

  lemma {:induction false} LowDigits(x: nat)
    requires x < 0x100000000
    ensures CountDigits(x) == |Digits(x)|
  {
    PowersOfTen();
    HighBitBytes(x);
    if x == 0 {
    } else if x < 0x100 {
      Rows0();
      ByRows(Table(), 0, 8, 0x1, 1, 10, x);
    } else if x < 0x10000 {
      Rows8();
      ByRows(Table(), 8, 8, 0x100, 3, 1_000, x);
    } else if x < 0x1000000 {
      Rows16();
      ByRows(Table(), 16, 8, 0x10000, 5, 100_000, x);
    } else {
      Rows24();
      ByRows(Table(), 24, 8, 0x1000000, 8, 100_000_000, x);
    }
    if x > 0 {
      CountByTable(x, |Digits(x)|);
    }
  }

  lemma {:induction false} HighDigits(x: nat)
    requires 0x100000000 <= x < 0x1000000000000
    ensures CountDigits(x) == |Digits(x)|
  {
    PowersOfTen();
    HighBitBytes(x);
    if x < 0x10000000000 {
      Rows32();
      ByRows(Table(), 32, 8, 0x100000000, 10, 10_000_000_000, x);
    } else {
      Rows40();
      ByRows(Table(), 40, 8, 0x10000000000, 13, 10_000_000_000_000, x);
    }
    CountByTable(x, |Digits(x)|);
  }

  lemma {:induction false} TopDigits(x: nat)
    requires 0x1000000000000 <= x < TWO64
    ensures CountDigits(x) == |Digits(x)|
  {
    PowersOfTen();
    HighBitBytes(x);
    if x < 0x100000000000000 {
      Rows48();
      ByRows(Table(), 48, 8, 0x1000000000000, 15, 1_000_000_000_000_000, x);
    } else {
      Rows56();
      ByRows(Table(), 56, 8, 0x100000000000000, 17, 100_000_000_000_000_000, x);
    }
    CountByTable(x, |Digits(x)|);
  }

  /** The table gives the exact number of decimal digits of every 64-bit number. */
  lemma {:induction false} CountDigitsIsExact(x: nat)
    requires x < TWO64
    ensures CountDigits(x) == |Digits(x)|
  {
    if x < 0x100000000 {
      LowDigits(x);
    } else if x < 0x1000000000000 {
      HighDigits(x);
    } else {
      TopDigits(x);
    }
  }

  // ---- printing

  /** A command as a RESP value: an array of bulk strings. */
  function Bulks(args: seq<string>): (items: seq<Value>)
    ensures |items| == |args|
  {
    seq(|args|, i requires 0 <= i < |args| => BulkString(args[i]))
  }

  function Command(args: seq<string>): Value { Array(Bulks(args)) }

  /** The texts of the arguments. */
  function Texts(args: seq<string>): seq<string> { EncodeAll(Bulks(args)) }

  lemma {:induction false} TextOf(args: seq<string>, i: nat)
    requires i < |args|
    ensures Texts(args)[i] == BulkText('$', args[i])
    ensures |Texts(args)[i]| == 5 + |args[i]| + |Digits(|args[i]|)|
  {
    var items := Bulks(args);
    assert items[i] == BulkString(args[i]);
    assert EncodeAll(items)[i] == Encode(items[i]);
    assert Encode(BulkString(args[i])) == BulkText('$', args[i]);
  }

  /** `command_unpack`: one argument is appended to the buffer. */
  method CommandUnpack(wbuffer: string, arg: string) returns (r: string)
    ensures r == wbuffer + BulkText('$', arg)
  {
    r := wbuffer + "$";
    r := r + Digits(|arg|);
    r := r + "\r\n";
    r := r + arg;
    r := r + "\r\n";
    assert Header('$', Text(|arg|)) == "$" + Digits(|arg|) + "\r\n";
    assert BulkText('$', arg) == "$" + Digits(|arg|) + "\r\n" + (arg + "\r\n");
    assert r == wbuffer + ("$" + Digits(|arg|) + "\r\n" + (arg + "\r\n"));
  }

  /** The arguments follow the header one after the other. */
  method UnpackAll(wbuffer: string, args: seq<string>) returns (r: string)
    ensures r == wbuffer + Concat(Texts(args), |args|)
  {
    r := wbuffer;
    var i := 0;
    while i < |args|
      invariant 0 <= i <= |args| && r == wbuffer + Concat(Texts(args), i)
    {
      TextOf(args, i);
      r := CommandUnpack(r, args[i]);
      i := i + 1;
    }
  }

  /** The length of a command, computed before it is printed. */
  method CommandSize(args: seq<string>) returns (size: nat)
    requires forall i :: 0 <= i < |args| ==> |args[i]| < TWO64
    ensures size == |Header('*', Digits(|args|))| + |Concat(Texts(args), |args|)|
  {
    size := 5 * |args| + 3 + |Digits(|args|)|;
    var i := 0;
    while i < |args|
      invariant 0 <= i <= |args|
      invariant size == 5 * (|args| - i) + 3 + |Digits(|args|)| + |Concat(Texts(args), i)|
    {
      TextOf(args, i);
      CountDigitsIsExact(|args[i]|);
      size := size + |args[i]| + CountDigits(|args[i]|);
      i := i + 1;
    }
  }

  /** `build_commands`: the space reserved in advance is exactly the length of the text. */
  method BuildCommands(args: seq<string>) returns (wbuffer: string, commandSize: nat)
    requires forall i :: 0 <= i < |args| ==> |args[i]| < TWO64
    ensures wbuffer == Encode(Command(args)) && |wbuffer| == commandSize
  {
    commandSize := CommandSize(args);
    wbuffer := "*" + Digits(|args|) + "\r\n";
    wbuffer := UnpackAll(wbuffer, args);
  }

  /** `build_commands_from_range`: the command name, a key when there is one, and a range. */
  method BuildFromRange(head: seq<string>, range: seq<string>) returns (wbuffer: string)
    ensures wbuffer == Encode(Command(head + range))
  {
    wbuffer := "*" + Digits(|head| + |range|) + "\r\n";
    wbuffer := UnpackAll(wbuffer, head);
    wbuffer := UnpackAll(wbuffer, range);
    ConcatTexts(head, range, |range|);
  }

  lemma {:induction false} ConcatPrefix(a: seq<string>, b: seq<string>, n: nat)
    requires n <= |a| && n <= |b| && forall i :: 0 <= i < n ==> a[i] == b[i]
    ensures Concat(a, n) == Concat(b, n)
  {
    if n > 0 {
      ConcatPrefix(a, b, n - 1);
    }
  }

  lemma {:induction false} TextsJoin(head: seq<string>, range: seq<string>, i: nat)
    requires i < |head| + |range|
    ensures Texts(head + range)[i] == if i < |head| then Texts(head)[i] else Texts(range)[i - |head|]
  {
  }

  lemma {:induction false} ConcatTexts(head: seq<string>, range: seq<string>, n: nat)
    requires n <= |range|
    ensures Concat(Texts(head + range), |head| + n) == Concat(Texts(head), |head|) + Concat(Texts(range), n)
  {
    if n == 0 {
      forall i | 0 <= i < |head| ensures Texts(head + range)[i] == Texts(head)[i] {
        TextsJoin(head, range, i);
      }
      ConcatPrefix(Texts(head + range), Texts(head), |head|);
    } else {
      ConcatTexts(head, range, n - 1);
      TextsJoin(head, range, |head| + n - 1);
    }
  }

  // ---- reading back

  function CommandValues(commands: seq<seq<string>>): (items: seq<Value>)
    ensures |items| == |commands|
  {
    seq(|commands|, i requires 0 <= i < |commands| => Command(commands[i]))
  }

  /** The parser reads any number of printed commands back as the argument lists they were. */
  lemma {:induction false} CommandsReadBack(cfg: Config, commands: seq<seq<string>>, rest: string)
    requires cfg.maxBulk <= MAX64 && |commands| <= MAX64
    requires forall k :: 0 <= k < |commands| ==> |commands[k]| <= MAX64
    requires forall k, i :: 0 <= k < |commands| && 0 <= i < |commands[k]| ==> |commands[k][i]| < cfg.maxBulk
    ensures var texts := EncodeAll(CommandValues(commands));
            var s := Concat(texts, |commands|) + rest;
            Repeat(Parser(cfg, s, 0), 0, |commands|) == Ok(CommandValues(commands), |Concat(texts, |commands|)|)
  {
    var items := CommandValues(commands);
    forall k | 0 <= k < |items| ensures Encodable(cfg, items[k]) {
      forall i | 0 <= i < |commands[k]| ensures Encodable(cfg, Bulks(commands[k])[i]) {
        assert Bulks(commands[k])[i] == BulkString(commands[k][i]);
      }
    }
    StreamRoundTrip(cfg, items, |items|, rest);
    assert items[..|items|] == items;
  }
}
