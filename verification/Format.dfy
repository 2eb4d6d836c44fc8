/** The bounded formatter and the string buffer of src/util.c. */
module Format {
  import opened Base

  // ---------- digits ----------

  /** A buffer of 64 characters holds 63 digits and the terminating NUL. */
  const DIGIT_SPACE: nat := 63

  /** format_base_digits. */
  function Digit(d: nat): (c: char)
    requires d < 36
    ensures DigitValue(c) == d && c != '-'
  {
    if d < 10 then '0' + d as char else 'a' + (d - 10) as char
  }

  function DigitValue(c: char): nat {
    if '0' <= c <= '9' then (c - '0') as nat
    else if 'a' <= c <= 'z' then (c - 'a') as nat + 10
    else 36
  }

  function Quotient(v: nat, base: nat): (q: nat)
    requires base >= 2
    ensures v > 0 ==> q < v
    ensures q == 0 <==> v < base
  {
    DivideFacts(v, base);
    v / base
  }

  function Remainder(v: nat, base: nat): (r: nat)
    requires base >= 2
    ensures r < base && v == Quotient(v, base) * base + r
  {
    DivideFacts(v, base);
    v % base
  }

  lemma DivideFacts(v: nat, base: nat)
    requires base >= 2
    ensures var q, r := v / base, v % base;
      0 <= r < base && v == q * base + r && (v > 0 ==> q < v) && (q == 0 <==> v < base)
  {
    var q, r := v / base, v % base;
    assert v == q * base + r;
    if q > 0 {
      Grows(q, base);
    }
  }

  lemma Grows(q: nat, base: nat)
    requires q > 0 && base >= 2
    ensures q * base >= base && q * base > q
  {
    assert q * base == q * (base - 1) + q;
    assert (q - 1) * base >= 0;
  }

  /** The digits of v, most significant first, and at least one. */
  function Digits(v: nat, base: nat): (s: string)
    requires 2 <= base <= 36
    ensures s != "" && s[0] != '-'
    decreases v
  {
    (if v < base then "" else Digits(Quotient(v, base), base)) + [Digit(Remainder(v, base))]
  }

  function Parse(s: string, base: nat): nat {
    if s == "" then 0 else Parse(s[..|s| - 1], base) * base + DigitValue(s[|s| - 1])
  }

  /** Digits read back to the number they were made from. */
  lemma {:induction false} ParseDigits(v: nat, base: nat)
    requires 2 <= base <= 36
    ensures Parse(Digits(v, base), base) == v
    decreases v
  {
    hide Quotient, Remainder, Digit, DigitValue;
    var s := Digits(v, base);
    if v < base {
      assert s[..0] == "";
    } else {
      ParseDigits(Quotient(v, base), base);
      assert s[..|s| - 1] == Digits(Quotient(v, base), base);
    }
  }

  function Power(base: nat, n: nat): nat {
    if n == 0 then 1 else base * Power(base, n - 1)
  }

  lemma DigitsLength(v: nat, base: nat)
    requires 2 <= base <= 36
    ensures |Digits(v, base)| == if v < base then 1 else |Digits(Quotient(v, base), base)| + 1
    ensures |Digits(v, base)| >= 1
  {
    hide Quotient, Remainder, Digit;
  }

  /** How many digits a number has: n are enough exactly if it is less than the n-th power of the base. */
  lemma {:induction false} DigitCount(v: nat, base: nat, n: nat)
    requires 2 <= base <= 36 && n > 0
    ensures |Digits(v, base)| <= n <==> v < Power(base, n)
    decreases n
  {
    hide *;
    PowerStep(base, n);
    DigitsLength(v, base);
    if v < base {
      PowerPositive(base, n - 1);
      Below(0, base, v, Power(base, n - 1));
    } else if n > 1 {
      var q := Quotient(v, base);
      DigitCount(q, base, n - 1);
      Below(q, base, Remainder(v, base), Power(base, n - 1));
    } else {
      DigitsLength(Quotient(v, base), base);
    }
  }

  lemma PowerStep(base: nat, n: nat)
    requires n > 0
    ensures Power(base, n) == base * Power(base, n - 1) && Power(base, 0) == 1
  {
  }

  lemma Below(q: nat, base: nat, r: nat, p: nat)
    requires r < base
    ensures q < p <==> q * base + r < base * p
  {
    if q < p {
      assert (q + 1) * base <= p * base;
    } else {
      assert p * base <= q * base;
    }
  }

  lemma {:induction false} PowerPositive(base: nat, n: nat)
    requires base >= 2
    ensures Power(base, n) >= 1
  {
    if n == 0 {
    } else {
      PowerPositive(base, n - 1);
    }
  }

  /** What format_integer_signed writes before padding. */
  function SignedDigits(v: int, base: nat): string
    requires 2 <= base <= 36
  {
    if v < 0 then "-" + Digits(-v, base) else Digits(v, base)
  }

  function ParseSigned(s: string, base: nat): int {
    if s != "" && s[0] == '-' then -(Parse(s[1..], base) as int) else Parse(s, base)
  }

  lemma SignedReadsBack(v: int, base: nat)
    requires 2 <= base <= 36
    ensures ParseSigned(SignedDigits(v, base), base) == v
  {
    hide Digits, Parse;
    ParseDigits(if v < 0 then -v else v, base);
    if v < 0 {
      assert SignedDigits(v, base)[1..] == Digits(-v, base);
    }
  }

  /** The digit loop of format_integer_signed and format_integer_unsigned: backwards into a local buffer. */
  method FormatDigits(value: nat, base: nat, buffer: array<char>) returns (p: nat)
    requires 2 <= base <= 36 && buffer.Length == DIGIT_SPACE + 1 && |Digits(value, base)| <= DIGIT_SPACE
    modifies buffer
    ensures p <= DIGIT_SPACE && buffer[p..DIGIT_SPACE] == Digits(value, base)
  {
    hide Quotient, Remainder, Digit;
    p := DIGIT_SPACE;
    buffer[p] := '\0';
    var v: nat := value;
    var more := true;
    while more
      invariant p <= DIGIT_SPACE && (more ==> |Digits(v, base)| <= p)
      invariant Digits(value, base) == (if more then Digits(v, base) else "") + buffer[p..DIGIT_SPACE]
      decreases more, v
    {
      ghost var tail := buffer[p..DIGIT_SPACE];
      var d := Digit(Remainder(v, base));
      p := p - 1;
      buffer[p] := d;
      assert buffer[p..DIGIT_SPACE] == [d] + tail;
      more := v >= base;
      v := Quotient(v, base);
    }
  }

  // ---------- the writer ----------

  /** safe_format_writer: what has been written is the beginning of what there was to write. */
  class Writer {
    const buffer: array<char>
    var nextChar: nat
    var spaceLeft: nat
    ghost var offered: string

    ghost predicate Valid()
      reads this, buffer
    {
      && nextChar + spaceLeft + 1 == buffer.Length
      && nextChar == Min(|offered|, buffer.Length - 1)
      && buffer[..nextChar] == offered[..nextChar]
    }

    constructor (buffer: array<char>)
      requires buffer.Length > 0
      ensures Valid() && this.buffer == buffer && offered == ""
    {
      this.buffer, nextChar, spaceLeft, offered := buffer, 0, buffer.Length - 1, "";
    }

    method Write(input: string)
      requires Valid()
      modifies this, buffer
      ensures Valid() && offered == old(offered) + input
    {
      var amount := Min(|input|, spaceLeft);
      ghost var before := buffer[..nextChar];
      forall i | 0 <= i < amount {
        buffer[nextChar + i] := input[i];
      }
      assert buffer[..nextChar + amount] == before + input[..amount];
      spaceLeft := spaceLeft - amount;
      nextChar := nextChar + amount;
      offered := offered + input;
    }
  }

  // ---------- fields ----------

  function Fill(n: int, fill: char): (s: string)
    ensures |s| == if n > 0 then n else 0
  {
    seq(if n > 0 then n else 0, _ => fill)
  }

  /** The text of a field: padded on the side that its alignment asks for, never cut. */
  function Pad(text: string, left: bool, width: nat, fill: char): string {
    var padding := Fill(width - |text|, fill);
    if left then text + padding else padding + text
  }

  /** The padding loop of format_string. */
  method WriteFill(n: int, fill: char, w: Writer)
    requires w.Valid()
    modifies w, w.buffer
    ensures w.Valid() && w.offered == old(w.offered) + Fill(n, fill)
  {
    var padding := n;
    while padding > 0
      invariant w.Valid()
      invariant n > 0 ==> 0 <= padding <= n && w.offered == old(w.offered) + Fill(n - padding, fill)
      invariant n <= 0 ==> padding == n && w.offered == old(w.offered)
    {
      w.Write([fill]);
      assert Fill(n - padding + 1, fill) == Fill(n - padding, fill) + [fill];
      padding := padding - 1;
    }
  }

  /** format_string. */
  method FormatString(value: string, left: bool, width: nat, fill: char, w: Writer)
    requires w.Valid()
    modifies w, w.buffer
    ensures w.Valid() && w.offered == old(w.offered) + Pad(value, left, width, fill)
  {
    var padding := width - |value|;
    if left {
      w.Write(value);
      WriteFill(padding, fill, w);
    } else {
      WriteFill(padding, fill, w);
      w.Write(value);
    }
  }

  /** format_integer_signed. */
  method FormatSigned(value: int, base: nat, left: bool, width: nat, fill: char, w: Writer)
    requires 2 <= base <= 36 && w.Valid() && |SignedDigits(value, base)| <= DIGIT_SPACE
    modifies w, w.buffer
    ensures w.Valid() && w.offered == old(w.offered) + Pad(SignedDigits(value, base), left, width, fill)
  {
    var buffer := new char[DIGIT_SPACE + 1];
    var p := FormatDigits(if value < 0 then -value else value, base, buffer);
    ghost var digits := buffer[p..DIGIT_SPACE];
    if value < 0 {
      p := p - 1;
      buffer[p] := '-';
      assert buffer[p..DIGIT_SPACE] == "-" + digits;
    }
    FormatString(buffer[p..DIGIT_SPACE], left, width, fill, w);
  }

  /** format_integer_unsigned. */
  method FormatUnsigned(value: nat, base: nat, left: bool, width: nat, fill: char, w: Writer)
    requires 2 <= base <= 36 && w.Valid() && |Digits(value, base)| <= DIGIT_SPACE
    modifies w, w.buffer
    ensures w.Valid() && w.offered == old(w.offered) + Pad(Digits(value, base), left, width, fill)
  {
    var buffer := new char[DIGIT_SPACE + 1];
    var p := FormatDigits(value, base, buffer);
    FormatString(buffer[p..DIGIT_SPACE], left, width, fill, w);
  }

  // ---------- formats ----------

  /** An argument. A pointer is its address; an int may be read as signed or unsigned. */
  datatype Arg = Int(i: int) | Text(s: string) | Address(a: nat)

  const INT_LIMIT: nat := 0x8000_0000
  const WORD_LIMIT: nat := 0x1_0000_0000_0000_0000

  /** The int that a variadic call passes, and size_t values made from it on a 64-bit host. */
  function AsInt(i: int): int {
    (i + INT_LIMIT) % 0x1_0000_0000 - INT_LIMIT
  }

  function AsUnsigned(i: int): nat {
    i % 0x1_0000_0000
  }

  function AsWord(i: int): nat {
    AsInt(i) % WORD_LIMIT
  }

  /** What stands after a percent sign, up to and with its letter. */
  datatype Directive = Directive(left: bool, fill: char, width: nat, conversion: char)

  predicate IsDigit(c: char) {
    '0' <= c <= '9'
  }

  /** The field width that begins at place i, and the place after it. */
  function Width(format: string, i: nat, sofar: nat): (r: (nat, nat))
    ensures i <= |format| ==> i <= r.1 <= |format|
    decreases |format| - i
  {
    if i < |format| && IsDigit(format[i]) then Width(format, i + 1, sofar * 10 + (format[i] - '0') as nat)
    else (sofar, i)
  }

  function At(format: string, i: nat, c: char): bool {
    i < |format| && format[i] == c
  }

  /** The directive whose text begins at place i and the place after it; None if the format ends within it. */
  function DirectiveAt(format: string, i: nat): (r: Option<(Directive, nat)>)
    ensures r.Some? ==> i < r.value.1 <= |format|
  {
    if i > |format| then None
    else
      var left := At(format, i, '-');
      var j := if left then i + 1 else i;
      var zero := At(format, j, '0');
      var k := if zero then j + 1 else j;
      var (width, end) := Width(format, k, 0);
      if end < |format| then Some((Directive(left, if zero then '0' else ' ', width, format[end]), end + 1)) else None
  }

  /** What a directive makes of its argument, and the arguments that are left. */
  datatype Conversion = Undefined | Converted(text: string, rest: seq<Arg>)

  /**
   The undefined cases are a missing argument, one of another type, a width
   that is no int, and digits that overflow the digit buffer.
   */
  function Convert(d: Directive, args: seq<Arg>): Conversion {
    if d.width >= INT_LIMIT then Undefined
    else if d.conversion == '%' then Converted("%", args)
    else if d.conversion !in "duxbscp" then Converted("", args)
    else if args == [] then Undefined
    else match args[0]
      case Int(i) =>
        if d.conversion == 'd' then Converted(Pad(SignedDigits(AsInt(i), 10), d.left, d.width, d.fill), args[1..])
        else if d.conversion == 'u' then Converted(Pad(Digits(AsUnsigned(i), 10), d.left, d.width, d.fill), args[1..])
        else if d.conversion == 'x' then Converted(Pad(Digits(AsWord(i), 16), d.left, d.width, d.fill), args[1..])
        else if d.conversion == 'b' && |Digits(AsWord(i), 2)| <= DIGIT_SPACE then
          Converted(Pad(Digits(AsWord(i), 2), d.left, d.width, d.fill), args[1..])
        else if d.conversion == 'c' then Converted(Pad([(i % 256) as char], d.left, d.width, d.fill), args[1..])
        else Undefined
      case Text(s) =>
        if d.conversion == 's' then Converted(Pad(s, d.left, d.width, d.fill), args[1..]) else Undefined
      case Address(a) =>
      if d.conversion == 'p' && a < WORD_LIMIT
      then Converted("<" + Pad(Digits(a, 16), d.left, 16, '0') + ">", args[1..])
        else Undefined
  }

  /**
   The whole text of a format from place i on, as if there were room for all of
   it; None where C leaves it undefined.
   */
  function Render(format: string, i: nat, args: seq<Arg>): Option<string>
    decreases |format| - i
  {
    if i >= |format| then Some("")
    else if format[i] != '%' then
      match Render(format, i + 1, args)
      case None => None
      case Some(rest) => Some([format[i]] + rest)
    else
      match DirectiveAt(format, i + 1)
      case None => None
      case Some((d, next)) =>
        match Convert(d, args)
        case Undefined => None
        case Converted(text, left) =>
          match Render(format, next, left)
          case None => None
          case Some(rest) => Some(text + rest)
  }

  /** Up to the next percent sign, the text stands for itself. */
  lemma {:induction false} RenderPlain(format: string, i: nat, j: nat, args: seq<Arg>)
    requires i <= j <= |format| && forall k :: i <= k < j ==> format[k] != '%'
    ensures Render(format, i, args) ==
      match Render(format, j, args)
      case None => None
      case Some(rest) => Some(format[i..j] + rest)
    decreases j - i
  {
    if i < j {
      RenderPlain(format, i + 1, j, args);
      if Render(format, j, args).Some? {
        var rest := Render(format, j, args).value;
        assert format[i..j] + rest == [format[i]] + (format[i + 1..j] + rest);
      }
    } else if Render(format, j, args).Some? {
      assert format[i..j] + Render(format, j, args).value == Render(format, j, args).value;
    }
  }

  lemma {:induction false} PowerAdd(base: nat, m: nat, n: nat)
    ensures Power(base, m + n) == Power(base, m) * Power(base, n)
  {
    if m == 0 {
    } else {
      PowerAdd(base, m - 1, n);
    }
  }

  lemma Powers()
    ensures Power(10, 10) == 10_000_000_000
    ensures Power(16, 16) == WORD_LIMIT
    ensures Power(2, 63) == 0x8000_0000_0000_0000
  {
    assert Power(16, 8) == 0x1_0000_0000;
    PowerAdd(16, 8, 8);
    assert Power(2, 9) == 512;
    PowerAdd(2, 9, 9);
    PowerAdd(2, 18, 18);
    PowerAdd(2, 36, 18);
    PowerAdd(2, 54, 9);
  }

  /** The 63 places of the digit buffer are enough for all conversions but that of a negative int to binary. */
  lemma DigitsFit(i: int)
    ensures |SignedDigits(AsInt(i), 10)| <= DIGIT_SPACE
    ensures |Digits(AsUnsigned(i), 10)| <= DIGIT_SPACE
    ensures |Digits(AsWord(i), 16)| <= DIGIT_SPACE
    ensures |Digits(AsWord(i), 2)| <= DIGIT_SPACE <==> AsInt(i) >= 0
  {
    hide Digits;
    Powers();
    var v := AsInt(i);
    DigitCount(if v < 0 then -v else v, 10, 10);
    DigitCount(AsUnsigned(i), 10, 10);
    DigitCount(AsWord(i), 16, 16);
    DigitCount(AsWord(i), 2, 63);
  }

  lemma AddressFits(a: nat)
    requires a < WORD_LIMIT
    ensures |Digits(a, 16)| <= DIGIT_SPACE
  {
    hide Digits;
    Powers();
    DigitCount(a, 16, 16);
  }

  /** The field that a directive describes, with its argument. */
  method FormatField(d: Directive, args: seq<Arg>, w: Writer) returns (left: seq<Arg>)
    requires w.Valid() && Convert(d, args).Converted?
    modifies w, w.buffer
    ensures w.Valid() && w.offered == old(w.offered) + Convert(d, args).text && left == Convert(d, args).rest
  {
    hide Pad, Digits, SignedDigits, AsInt, AsUnsigned, AsWord;
    if d.conversion == '%' {
      w.Write("%");
      return args;
    }
    if d.conversion !in "duxbscp" {
      return args;
    }
    left := args[1..];
    match args[0]
    case Int(i) =>
      DigitsFit(i);
      if d.conversion == 'd' {
        FormatSigned(AsInt(i), 10, d.left, d.width, d.fill, w);
      } else if d.conversion == 'u' {
        FormatUnsigned(AsUnsigned(i), 10, d.left, d.width, d.fill, w);
      } else if d.conversion == 'x' {
        FormatUnsigned(AsWord(i), 16, d.left, d.width, d.fill, w);
      } else if d.conversion == 'b' {
        FormatUnsigned(AsWord(i), 2, d.left, d.width, d.fill, w);
      } else {
        FormatString([(i % 256) as char], d.left, d.width, d.fill, w);
      }
    case Text(s) =>
      FormatString(s, d.left, d.width, d.fill, w);
    case Address(a) =>
      AddressFits(a);
      w.Write("<");
      FormatUnsigned(a, 16, d.left, 16, '0', w);
      w.Write(">");
  }

  /** The part of format_message that reads a directive, from behind the percent sign. */
  method ReadDirective(format: string, i: nat) returns (d: Directive, next: nat)
    requires DirectiveAt(format, i).Some?
    ensures DirectiveAt(format, i) == Some((d, next))
  {
    var cursor := i;
    var left := At(format, cursor, '-');
    if left {
      cursor := cursor + 1;
    }
    var fill := ' ';
    if At(format, cursor, '0') {
      fill := '0';
      cursor := cursor + 1;
    }
    var width: nat := 0;
    ghost var start := cursor;
    while cursor < |format| && IsDigit(format[cursor])
      invariant start <= cursor && Width(format, start, 0) == Width(format, cursor, width)
      decreases |format| - cursor
    {
      width := width * 10 + (format[cursor] - '0') as nat;
      cursor := cursor + 1;
    }
    d := Directive(left, fill, width, format[cursor]);
    next := cursor + 1;
  }

  method FindPercent(format: string, from: nat) returns (pos: nat)
    requires from <= |format|
    ensures from <= pos <= |format| && (pos < |format| ==> format[pos] == '%')
    ensures forall k :: from <= k < pos ==> format[k] != '%'
  {
    pos := from;
    while pos < |format| && format[pos] != '%'
      invariant from <= pos <= |format|
      invariant forall k :: from <= k < pos ==> format[k] != '%'
    {
      pos := pos + 1;
    }
  }

  /** format_message: all that it offers to the writer together is the whole rendering. */
  method FormatMessage(format: string, args: seq<Arg>, w: Writer)
    requires w.Valid() && Render(format, 0, args).Some?
    modifies w, w.buffer
    ensures w.Valid() && w.offered == old(w.offered) + Render(format, 0, args).value
  {
    hide Convert, DirectiveAt;
    var cursor, left := 0, args;
    var pos := FindPercent(format, cursor);
    RenderPlain(format, cursor, pos, left);
    while pos < |format|
      invariant w.Valid() && cursor <= pos <= |format|
      invariant pos < |format| ==> format[pos] == '%'
      invariant Render(format, pos, left).Some?
      invariant old(w.offered) + Render(format, 0, args).value
             == w.offered + format[cursor..pos] + Render(format, pos, left).value
      decreases |format| - cursor
    {
      w.Write(format[cursor..pos]);
      ghost var before := w.offered;
      ghost var rest := Render(format, pos, left).value;
      cursor, left := FormatNext(format, pos, left, w);
      pos := FindPercent(format, cursor);
      RenderPlain(format, cursor, pos, left);
      hide Render;
      Resumed(before, w.offered, rest, format[cursor..pos], Render(format, pos, left).value);
    }
    w.Write(format[cursor..]);
    assert format[cursor..pos] == format[cursor..];
  }

  lemma Resumed(before: string, offered: string, rest: string, plain: string, tail: string)
    requires before <= offered && rest == offered[|before|..] + (plain + tail)
    ensures before + rest == offered + plain + tail
  {
    assert before + offered[|before|..] == offered;
  }

  /** One turn of the loop of format_message, from the percent sign on. */
  method FormatNext(format: string, pos: nat, args: seq<Arg>, w: Writer) returns (next: nat, left: seq<Arg>)
    requires w.Valid() && pos < |format| && format[pos] == '%' && Render(format, pos, args).Some?
    modifies w, w.buffer
    ensures w.Valid() && old(w.offered) <= w.offered && pos < next <= |format| && Render(format, next, left).Some?
    ensures Render(format, pos, args).value == w.offered[|old(w.offered)|..] + Render(format, next, left).value
  {
    hide Convert, DirectiveAt;
    var d;
    d, next := ReadDirective(format, pos + 1);
    left := FormatField(d, args, w);
    assert w.offered[|old(w.offered)|..] == Convert(d, args).text;
  }

  /**
   rl_format_msg: the buffer holds as much of the whole rendering as fits
   before the terminating NUL, which is always there.
   */
  method FormatMsg(buffer: array<char>, format: string, args: seq<Arg>) returns (n: nat)
    requires buffer.Length > 0 && Render(format, 0, args).Some?
    modifies buffer
    ensures var full := Render(format, 0, args).value;
      && n == Min(|full|, buffer.Length - 1)
      && buffer[..n] == full[..n] && buffer[n] == '\0'
  {
    var w := new Writer(buffer);
    FormatMessage(format, args, w);
    buffer[w.nextChar] := '\0';
    n := w.nextChar;
    assert w.offered == Render(format, 0, args).value;
  }

  // ---------- what a directive writes ----------

  /** A field holds the text at its beginning or its end, whole, and fill characters otherwise. */
  predicate IsField(field: string, text: string, left: bool, width: nat, fill: char) {
    var n := |text|;
    && |field| == (if n < width then width else n)
    && (if left then text <= field && forall k :: n <= k < |field| ==> field[k] == fill
        else field[|field| - n..] == text && forall k :: 0 <= k < |field| - n ==> field[k] == fill)
  }

  lemma PadIsField(text: string, left: bool, width: nat, fill: char)
    ensures IsField(Pad(text, left, width, fill), text, left, width, fill)
  {
  }

  /** The text is the numeral of v: the digits of a base, the most significant first, without idle zeros. */
  predicate IsNumeral(text: string, base: nat, v: nat) {
    && text != "" && Parse(text, base) == v
    && (forall k :: 0 <= k < |text| ==> DigitValue(text[k]) < base)
    && (text[0] == '0' ==> |text| == 1)
  }

  lemma {:induction false} DigitsAreNumeral(v: nat, base: nat)
    requires 2 <= base <= 36
    ensures IsNumeral(Digits(v, base), base, v)
    decreases v
  {
    ParseDigits(v, base);
    var s, r := Digits(v, base), Remainder(v, base);
    assert DigitValue(Digit(r)) == r;
    if v < base {
    } else {
      var q := Quotient(v, base);
      DigitsAreNumeral(q, base);
      var front := Digits(q, base);
      assert s == front + [Digit(r)];
      hide Quotient, Remainder, Digits, DigitValue, Digit;
      NumeralGrows(front, base, q, s, v);
    }
  }

  lemma NumeralGrows(front: string, base: nat, q: nat, s: string, v: nat)
    requires IsNumeral(front, base, q) && q > 0 && |s| == |front| + 1 && s[..|front|] == front
    requires Parse(s, base) == v && DigitValue(s[|front|]) < base
    ensures IsNumeral(s, base, v)
  {
    assert s[0] == front[0];
    if front[0] == '0' {
      ZeroIsZero(front, base, q);
    }
    forall k | 0 <= k < |s|
      ensures DigitValue(s[k]) < base
    {
      if k < |front| {
        assert s[k] == front[k];
      }
    }
  }

  lemma ZeroIsZero(front: string, base: nat, q: nat)
    requires IsNumeral(front, base, q) && front[0] == '0'
    ensures q == 0
  {
    assert front[..0] == "" && Parse("", base) == 0;
  }

  /** What each conversion shows of its argument; ints are those of 32 bits, addresses those of 64. */
  predicate Shows(text: string, conversion: char, arg: Arg) {
    match arg
    case Int(i) =>
      && -0x8000_0000 <= i < 0x8000_0000
      && (match conversion
          case 'd' =>
            if i < 0 then text != "" && text[0] == '-' && IsNumeral(text[1..], 10, -i) else IsNumeral(text, 10, i)
          case 'u' => IsNumeral(text, 10, if i < 0 then i + 0x1_0000_0000 else i)
          case 'x' => IsNumeral(text, 16, if i < 0 then i + 0x1_0000_0000_0000_0000 else i)
          case 'b' => i >= 0 && IsNumeral(text, 2, i)
          case 'c' => |text| == 1 && text[0] as int == i % 256
          case _ => false)
    case Text(s) => conversion == 's' && text == s
    case Address(a) => conversion == 'p' && a < WORD_LIMIT && IsNumeral(text, 16, a)
  }

  /** The argument is one that the conversion has a meaning for. */
  predicate Meant(conversion: char, arg: Arg) {
    match arg
    case Int(i) =>
      && -0x8000_0000 <= i < 0x8000_0000
      && (conversion == 'd' || conversion == 'u' || conversion == 'x' || conversion == 'c'
          || (conversion == 'b' && i >= 0))
    case Text(_) => conversion == 's'
    case Address(a) => conversion == 'p' && a < WORD_LIMIT
  }

  /** The directive writes this for the argument: a field with the argument's text, in brackets for an address. */
  ghost predicate Writes(d: Directive, arg: Arg, output: string) {
    exists text :: Shows(text, d.conversion, arg) &&
      if arg.Address? then
        |output| >= 2 && output[0] == '<' && output[|output| - 1] == '>'
        && IsField(output[1..|output| - 1], text, d.left, 16, '0')
      else IsField(output, text, d.left, d.width, d.fill)
  }

  lemma WritesThis(d: Directive, arg: Arg, text: string)
    requires Shows(text, d.conversion, arg) && !arg.Address?
    ensures Writes(d, arg, Pad(text, d.left, d.width, d.fill))
  {
    hide Pad, Shows, IsField;
    PadIsField(text, d.left, d.width, d.fill);
  }

  lemma IntShown(conversion: char, i: int) returns (text: string)
    requires Meant(conversion, Int(i))
    ensures Shows(text, conversion, Int(i))
    ensures text ==
      match conversion
      case 'd' => SignedDigits(AsInt(i), 10)
      case 'u' => Digits(AsUnsigned(i), 10)
      case 'x' => Digits(AsWord(i), 16)
      case 'b' => Digits(AsWord(i), 2)
      case _ => [(i % 256) as char]
  {
    hide Digits, Parse, DigitValue, IsNumeral;
    assert AsInt(i) == i;
    match conversion
    case 'd' =>
      DigitsAreNumeral(if i < 0 then -i else i, 10);
      text := SignedDigits(i, 10);
      assert i < 0 ==> text[1..] == Digits(-i, 10);
    case 'u' =>
      DigitsAreNumeral(AsUnsigned(i), 10);
      text := Digits(AsUnsigned(i), 10);
    case 'x' =>
      DigitsAreNumeral(AsWord(i), 16);
      text := Digits(AsWord(i), 16);
    case 'b' =>
      DigitsAreNumeral(AsWord(i), 2);
      text := Digits(AsWord(i), 2);
    case _ =>
      text := [(i % 256) as char];
  }

  /** Every conversion of a meaningful argument is defined, uses up that argument, and writes it. */
  lemma ConvertWrites(d: Directive, args: seq<Arg>)
    requires d.width < INT_LIMIT && args != [] && Meant(d.conversion, args[0])
    ensures Convert(d, args).Converted? && Convert(d, args).rest == args[1..]
    ensures Writes(d, args[0], Convert(d, args).text)
  {
    hide Digits, Parse, DigitValue, Pad, IsNumeral, IsField;
    match args[0]
    case Int(i) =>
      DigitsFit(i);
      var text := IntShown(d.conversion, i);
      WritesThis(d, args[0], text);
      hide AsInt, AsUnsigned, AsWord, SignedDigits, Shows, Writes;
    case Text(s) => WritesThis(d, args[0], s);
    case Address(a) => AddressWritten(d, a);
  }

  lemma AddressWritten(d: Directive, a: nat)
    requires d.conversion == 'p' && a < WORD_LIMIT
    ensures Writes(d, Address(a), "<" + Pad(Digits(a, 16), d.left, 16, '0') + ">")
  {
    hide Digits, Pad, IsField, IsNumeral, Parse, DigitValue;
    DigitsAreNumeral(a, 16);
    var text := Digits(a, 16);
    PadIsField(text, d.left, 16, '0');
    assert Shows(text, 'p', Address(a));
    hide Shows;
    var field := Pad(text, d.left, 16, '0');
    var output := "<" + field + ">";
    assert output[1..|output| - 1] == field;
  }

  /** The text of a directive: flags, the digits of the width, and the letter. */
  function DirectiveText(left: bool, zero: bool, width: string, conversion: char): string {
    "%" + (if left then "-" else "") + (if zero then "0" else "") + width + [conversion]
  }

  /** Such a text can be read in one way: the width has no zero in front, and the letter is no flag or digit. */
  predicate Plain(left: bool, zero: bool, width: string, conversion: char) {
    && (forall k :: 0 <= k < |width| ==> IsDigit(width[k]))
    && (width != "" && !zero ==> width[0] != '0')
    && !IsDigit(conversion) && conversion != '-'
  }

  lemma {:induction false} WidthParses(format: string, i: nat, width: string, done: string)
    requires i + |width| < |format| && format[i..i + |width|] == width
    requires forall k :: 0 <= k < |width| ==> IsDigit(width[k])
    requires !IsDigit(format[i + |width|])
    ensures Width(format, i, Parse(done, 10)) == (Parse(done + width, 10), i + |width|)
    decreases |width|
  {
    if width == "" {
      assert done + width == done;
    } else {
      var c := width[0];
      assert format[i] == c;
      var more := done + [c];
      assert more[..|done|] == done && more[|done|] == c;
      assert Parse(more, 10) == Parse(done, 10) * 10 + DigitValue(c);
      assert DigitValue(c) == (c - '0') as nat;
      assert format[i + 1..i + 1 + |width[1..]|] == width[1..];
      WidthParses(format, i + 1, width[1..], more);
      assert more + width[1..] == done + width;
    }
  }

  /** Where the parts of a directive's text are. */
  lemma DirectiveParts(format: string, i: nat, left: bool, zero: bool, width: string, conversion: char)
    requires var n := |DirectiveText(left, zero, width, conversion)|;
      i + n <= |format| && format[i..i + n] == DirectiveText(left, zero, width, conversion)
    ensures
      var j := if left then i + 2 else i + 1;
      var k := if zero then j + 1 else j;
      && i + |DirectiveText(left, zero, width, conversion)| == k + |width| + 1 <= |format|
      && format[i] == '%' && (left ==> format[i + 1] == '-') && (zero ==> format[j] == '0')
      && format[k..k + |width|] == width && format[k + |width|] == conversion
  {
    var text := DirectiveText(left, zero, width, conversion);
    assert forall x :: 0 <= x < |text| ==> format[i + x] == text[x];
    var k := (if left then 2 else 1) + if zero then 1 else 0;
    forall x | 0 <= x < |width|
      ensures format[i + k + x] == width[x]
    {
      assert text[k + x] == width[x];
    }
    assert format[i + (k + |width|)] == text[k + |width|] == conversion;
  }

  /** The directive at place i is read as it is written. */
  lemma DirectiveReads(format: string, i: nat, left: bool, zero: bool, width: string, conversion: char)
    requires Plain(left, zero, width, conversion)
    requires var n := |DirectiveText(left, zero, width, conversion)|;
      i + n <= |format| && format[i..i + n] == DirectiveText(left, zero, width, conversion)
    ensures DirectiveAt(format, i + 1) ==
      Some((Directive(left, if zero then '0' else ' ', Parse(width, 10), conversion),
            i + |DirectiveText(left, zero, width, conversion)|))
  {
    hide Parse, Width, DirectiveText;
    var j := if left then i + 2 else i + 1;
    var k := if zero then j + 1 else j;
    DirectiveParts(format, i, left, zero, width, conversion);
    assert width != "" ==> format[k] == width[0];
    assert At(format, i + 1, '-') == left;
    assert At(format, j, '0') == zero;
    WidthParses(format, k, width, "");
    assert "" + width == width;
    EmptyParses();
  }

  lemma EmptyParses()
    ensures Parse("", 10) == 0
  {
  }

  lemma RenderDirective(format: string, i: nat, d: Directive, next: nat, args: seq<Arg>)
    requires i < |format| && format[i] == '%' && DirectiveAt(format, i + 1) == Some((d, next))
    requires Convert(d, args).Converted?
    ensures Render(format, i, args) ==
      match Render(format, next, Convert(d, args).rest)
      case None => None
      case Some(rest) => Some(Convert(d, args).text + rest)
  {
    hide Convert, DirectiveAt;
  }

  /**
   A directive in a format, with its flags and its width, writes the next
   argument as a field: the whole text at the side that the flag asks for, the
   rest filled; and the rest of the format follows with the other arguments.
   */
  lemma RenderField(format: string, i: nat, left: bool, zero: bool, width: string, conversion: char, args: seq<Arg>)
    requires Plain(left, zero, width, conversion) && Parse(width, 10) < INT_LIMIT
    requires args != [] && Meant(conversion, args[0])
    requires var n := |DirectiveText(left, zero, width, conversion)|;
      i + n <= |format| && format[i..i + n] == DirectiveText(left, zero, width, conversion)
    ensures
      var d := Directive(left, if zero then '0' else ' ', Parse(width, 10), conversion);
      var tail := Render(format, i + |DirectiveText(left, zero, width, conversion)|, args[1..]);
      match Render(format, i, args)
      case None => tail.None?
      case Some(all) =>
        && tail.Some? && |tail.value| <= |all|
        && all[|all| - |tail.value|..] == tail.value
        && Writes(d, args[0], all[..|all| - |tail.value|])
  {
    hide *;
    var d := Directive(left, if zero then '0' else ' ', Parse(width, 10), conversion);
    var next := i + |DirectiveText(left, zero, width, conversion)|;
    DirectiveParts(format, i, left, zero, width, conversion);
    DirectiveReads(format, i, left, zero, width, conversion);
    ConvertWrites(d, args);
    RenderDirective(format, i, d, next, args);
    var output, tail := Convert(d, args).text, Render(format, next, args[1..]);
    if tail.Some? {
      var all := output + tail.value;
      assert all[..|all| - |tail.value|] == output && all[|all| - |tail.value|..] == tail.value;
    }
  }

  /** A percent sign writes itself, every other letter nothing, whatever flags and width; no argument is used. */
  lemma RenderOther(format: string, i: nat, left: bool, zero: bool, width: string, conversion: char, args: seq<Arg>)
    requires Plain(left, zero, width, conversion) && Parse(width, 10) < INT_LIMIT && conversion !in "duxbscp"
    requires var n := |DirectiveText(left, zero, width, conversion)|;
      i + n <= |format| && format[i..i + n] == DirectiveText(left, zero, width, conversion)
    ensures
      var tail := Render(format, i + |DirectiveText(left, zero, width, conversion)|, args);
      if tail.None? then Render(format, i, args).None?
      else Render(format, i, args) == Some((if conversion == '%' then "%" else "") + tail.value)
  {
    hide Render, Plain, Parse, DirectiveText, DirectiveAt;
    var d := Directive(left, if zero then '0' else ' ', Parse(width, 10), conversion);
    var next := i + |DirectiveText(left, zero, width, conversion)|;
    DirectiveParts(format, i, left, zero, width, conversion);
    DirectiveReads(format, i, left, zero, width, conversion);
    RenderDirective(format, i, d, next, args);
  }

  /** So does a format that is one directive. */
  lemma FieldAlone(left: bool, zero: bool, width: string, conversion: char, arg: Arg)
    requires Plain(left, zero, width, conversion) && Parse(width, 10) < INT_LIMIT && Meant(conversion, arg)
    ensures
      var output := Render(DirectiveText(left, zero, width, conversion), 0, [arg]);
      && output.Some?
      && Writes(Directive(left, if zero then '0' else ' ', Parse(width, 10), conversion), arg, output.value)
  {
    hide Plain, Meant, Writes, Parse;
    var format := DirectiveText(left, zero, width, conversion);
    assert format[0..0 + |format|] == format;
    RenderField(format, 0, left, zero, width, conversion, [arg]);
    var output := Render(format, 0, [arg]);
    assert Render(format, |format|, [arg][1..]) == Some("");
    assert output.value[..|output.value| - 0] == output.value;
  }

  /** A number stands in the text, with nothing but spaces around it. */
  ghost predicate ReadsBack(text: string, i: int) {
    exists from, to :: 0 <= from <= to <= |text| && ParseSigned(text[from..to], 10) == i
      && forall k :: 0 <= k < |text| && !(from <= k < to) ==> text[k] == ' '
  }

  lemma FieldReadsBack(field: string, text: string, left: bool, width: nat, i: int)
    requires Shows(text, 'd', Int(i)) && IsField(field, text, left, width, ' ')
    ensures ReadsBack(field, i)
  {
    assert ParseSigned(text, 10) == i;
    hide Shows, ParseSigned;
    var from := if left then 0 else |field| - |text|;
    assert field[from..from + |text|] == text;
  }

  /** The number of a decimal directive is read back from the field it is written in, whatever the width. */
  lemma DecimalReadsBack(i: int, left: bool, width: string)
    requires -0x8000_0000 <= i < 0x8000_0000 && Plain(left, false, width, 'd') && Parse(width, 10) < INT_LIMIT
    ensures
      var output := Render(DirectiveText(left, false, width, 'd'), 0, [Int(i)]);
      output.Some? && ReadsBack(output.value, i)
  {
    assert Meant('d', Int(i));
    hide Render, DirectiveText, Plain, Parse, Shows, IsField, ReadsBack, Meant;
    FieldAlone(left, false, width, 'd', Int(i));
    var all := Render(DirectiveText(left, false, width, 'd'), 0, [Int(i)]).value;
    var d := Directive(left, ' ', Parse(width, 10), 'd');
    assert Writes(d, Int(i), all);
    var text :| Shows(text, 'd', Int(i)) && IsField(all, text, left, d.width, ' ');
    FieldReadsBack(all, text, left, d.width, i);
  }

  // ---------- the string buffer ----------

  /** rl_strbuf_t, with the array that its two pointers point into. */
  class StringBuffer {
    const chars: array<char>
    var next: nat
    ghost var appended: string

    /** The buffer holds the first characters of all that was appended, and a NUL. */
    ghost predicate Valid()
      reads this, chars
    {
      && chars.Length > 0 && next == Min(|appended|, chars.Length)
      && (var n := Min(|appended|, chars.Length - 1); chars[..n] == appended[..n] && chars[n] == '\0')
    }

    /** rl_strbuf_init. */
    constructor (chars: array<char>)
      requires chars.Length > 0
      modifies chars
      ensures Valid() && this.chars == chars && appended == ""
    {
      this.chars, next, appended := chars, 0, "";
      new;
      chars[0] := '\0';
    }

    /** strbuf_null_terminate: the last character gives way if there is no room left. */
    method Terminate()
      requires chars.Length > 0 && next == Min(|appended|, chars.Length)
      requires chars[..Min(|appended|, chars.Length - 1)] == appended[..Min(|appended|, chars.Length - 1)]
      modifies chars
      ensures Valid()
    {
      ghost var n := Min(|appended|, chars.Length - 1);
      ghost var before := chars[..n];
      if next != chars.Length {
        chars[next] := '\0';
      } else {
        chars[chars.Length - 1] := '\0';
      }
      assert chars[..n] == before;
    }

    /** rl_strbuf_append; the result says whether all of it has fitted so far. */
    method Append(s: string) returns (room: bool)
      requires Valid()
      modifies this, chars
      ensures Valid() && appended == old(appended) + s
      ensures room <==> |appended| < chars.Length
    {
      var i := 0;
      while i < |s|
        invariant i <= |s| && chars.Length > 0
        invariant appended == old(appended) + s[..i] && next == Min(|appended|, chars.Length)
        invariant var n := Min(|appended|, chars.Length - 1); chars[..n] == appended[..n]
      {
        ghost var n, before := Min(|appended|, chars.Length - 1), chars[..Min(|appended|, chars.Length - 1)];
        if next != chars.Length {
          chars[next] := s[i];
          next := next + 1;
        }
        assert chars[..n] == before;
        appended := appended + [s[i]];
        i := i + 1;
      }
      assert s[..|s|] == s;
      Terminate();
      room := next != chars.Length;
    }
  }
}
