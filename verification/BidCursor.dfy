/** The textual page cursor: `amount:time:id`. */
module BidCursor {
  import opened Wrappers
  import opened BidTable

  const I64_LIMIT := 0x8000_0000_0000_0000

  predicate IsI64(n: int) { -I64_LIMIT <= n < I64_LIMIT }

  datatype CursorError = BadFormat | BadAmount | BadTime | BadId

  // ----- decimal integers

  predicate IsDigit(c: char) { '0' <= c <= '9' }

  function DigitOf(d: int): char
    requires 0 <= d < 10
  {
    '0' + d as char
  }

  function PrintNat(n: nat): (s: string)
    ensures s != "" && forall c <- s :: IsDigit(c)
  {
    if n < 10 then [DigitOf(n)] else PrintNat(n / 10) + [DigitOf(n % 10)]
  }

  function PrintInt(n: int): string {
    if n < 0 then "-" + PrintNat(-n) else PrintNat(n)
  }

  function NatValue(s: string): (n: int)
    requires forall c <- s :: IsDigit(c)
    ensures 0 <= n
  {
    if s == "" then 0
    else
      assert s[|s| - 1] in s;
      assert IsDigit(s[|s| - 1]);
      10 * NatValue(s[..|s| - 1]) + (s[|s| - 1] as int - '0' as int)
  }

  predicate AllDigits(s: string) { s != "" && forall c <- s :: IsDigit(c) }

  /** Integer parsing: an optional sign, at least one digit, and a value that fits 64 bits. */
  function ParseI64(s: string): (r: Option<int>)
    ensures r.Some? ==> IsI64(r.value)
  {
    if s != "" && s[0] in {'-', '+'} then
      if !AllDigits(s[1..]) then None
      else
        var v: int := if s[0] == '-' then -NatValue(s[1..]) else NatValue(s[1..]);
        if IsI64(v) then Some(v) else None
    else if !AllDigits(s) then None
    else if IsI64(NatValue(s)) then Some(NatValue(s))
    else None
  }

  lemma {:induction false} PrintedNatHasItsValue(n: nat)
    ensures NatValue(PrintNat(n)) == n
  {
    if 10 <= n {
      PrintedNatHasItsValue(n / 10);
      var s := PrintNat(n);
      assert s[..|s| - 1] == PrintNat(n / 10);
    } else {
      assert PrintNat(n)[..0] == "";
    }
  }

  lemma ParsePrintedInt(n: int)
    requires IsI64(n)
    ensures ParseI64(PrintInt(n)) == Some(n)
  {
    if n < 0 {
      PrintedNatHasItsValue(-n);
      assert PrintInt(n)[1..] == PrintNat(-n);
    } else {
      PrintedNatHasItsValue(n);
      assert PrintNat(n)[0] in PrintNat(n);
    }
  }

  function Zeros(n: nat): (s: string)
    ensures |s| == n && forall c <- s :: c == '0'
  {
    seq(n, _ => '0')
  }

  /** The text is the number in decimal, after leading zeros and a sign if there is one. */
  predicate Writes(text: string, n: int) {
    exists zeros | 0 <= zeros <= |text| ::
      var digits := Zeros(zeros) + PrintNat(if n < 0 then -n else n);
      (0 <= n && (text == digits || text == "+" + digits)) || (n <= 0 && text == "-" + digits)
  }

  lemma {:induction false} DigitsAreTheirValue(s: string) returns (zeros: nat)
    requires AllDigits(s)
    ensures s == Zeros(zeros) + PrintNat(NatValue(s)) && zeros <= |s|
    decreases |s|
  {
    hide PrintNat, NatValue;
    var init, last := s[..|s| - 1], s[|s| - 1];
    assert last in s && s == init + [last];
    LastDigit(s);
    if init == "" {
      zeros := 0;
      EmptyIsZero();
    } else {
      assert forall c <- init :: c in s;
      zeros := DigitsAreTheirValue(init);
      if NatValue(init) == 0 {
        LastDigit("0");
        EmptyIsZero();
        zeros := zeros + 1;
        assert init == Zeros(zeros);
      }
    }
  }

  lemma EmptyIsZero()
    ensures NatValue("") == 0 && PrintNat(0) == "0"
  {
  }

  /** The last digit is the remainder by ten, in the value and in the print. */
  lemma LastDigit(s: string)
    requires AllDigits(s)
    ensures var init, last := s[..|s| - 1], s[|s| - 1];
            && NatValue(init) == 0 ==> PrintNat(NatValue(s)) == [last]
    ensures var init, last := s[..|s| - 1], s[|s| - 1];
            && NatValue(init) != 0 ==> PrintNat(NatValue(s)) == PrintNat(NatValue(init)) + [last]
  {
    var init, last := s[..|s| - 1], s[|s| - 1];
    assert last in s;
    var d := last as int - '0' as int;
    assert NatValue(s) == 10 * NatValue(init) + d && DigitOf(d) == last;
    assert (10 * NatValue(init) + d) / 10 == NatValue(init) && (10 * NatValue(init) + d) % 10 == d;
  }

  lemma {:induction false} LeadingZerosDoNotCount(zeros: nat, s: string)
    requires AllDigits(s)
    ensures AllDigits(Zeros(zeros) + s) && NatValue(Zeros(zeros) + s) == NatValue(s)
    decreases zeros + |s|
  {
    var t := Zeros(zeros) + s;
    assert t[|t| - 1] == s[|s| - 1] && t[..|t| - 1] == Zeros(zeros) + s[..|s| - 1];
    if |s| == 1 {
      ZerosAreZero(zeros);
      assert t[..|t| - 1] == Zeros(zeros) && s[..0] == "";
    } else {
      LeadingZerosDoNotCount(zeros, s[..|s| - 1]);
    }
  }

  lemma {:induction false} ZerosAreZero(n: nat)
    ensures NatValue(Zeros(n)) == 0
  {
    if n != 0 {
      ZerosAreZero(n - 1);
      assert Zeros(n)[..n - 1] == Zeros(n - 1);
    }
  }

  /** A text parses to a number exactly when it writes that number and the number fits 64 bits. */
  lemma ParsesIffWrites(s: string, n: int)
    ensures ParseI64(s) == Some(n) <==> IsI64(n) && Writes(s, n)
  {
    hide PrintNat, NatValue;
    if ParseI64(s) == Some(n) { ParsedIsWritten(s, n); }
    if IsI64(n) && Writes(s, n) { WrittenParses(s, n); }
  }

  lemma ParsedIsWritten(s: string, n: int)
    requires ParseI64(s) == Some(n)
    ensures Writes(s, n)
  {
    hide PrintNat, NatValue;
    if s[0] in {'-', '+'} {
      var zeros := DigitsAreTheirValue(s[1..]);
      assert s == [s[0]] + s[1..];
    } else {
      var zeros := DigitsAreTheirValue(s);
    }
  }

  lemma SignedDigitsParse(sign: string, digits: string)
    requires AllDigits(digits) && (sign == "" || sign == "+" || sign == "-")
    ensures var v: int := if sign == "-" then -NatValue(digits) else NatValue(digits);
            IsI64(v) ==> ParseI64(sign + digits) == Some(v)
  {
    hide NatValue;
    assert digits[0] in digits;
    if sign != "" { assert (sign + digits)[1..] == digits; } else { assert sign + digits == digits; }
  }

  lemma WrittenParses(s: string, n: int)
    requires Writes(s, n) && IsI64(n)
    ensures ParseI64(s) == Some(n)
  {
    hide NatValue, PrintNat, ParseI64, AllDigits, Zeros, IsI64;
    var m: nat := if n < 0 then -n else n;
    var zeros :| 0 <= zeros <= |s| && var digits := Zeros(zeros) + PrintNat(m);
      (0 <= n && (s == digits || s == "+" + digits)) || (n <= 0 && s == "-" + digits);
    var digits := Zeros(zeros) + PrintNat(m);
    PrintedNatHasItsValue(m);
    PrintsDigits(m);
    LeadingZerosDoNotCount(zeros, PrintNat(m));
    SignedDigitsParse("", digits);
    SignedDigitsParse("+", digits);
    SignedDigitsParse("-", digits);
    assert "" + digits == digits;
  }

  lemma PrintsDigits(n: nat)
    ensures AllDigits(PrintNat(n))
  {
  }

  // ----- splitting and blank ids

  /** Text before the first colon, and text after it if there is one. */
  function SplitColon(s: string): (r: (string, Option<string>))
    ensures ':' !in r.0
    ensures s == r.0 + (match r.1 case Some(rest) => ":" + rest case None => "")
  {
    if s == "" then ("", None)
    else if s[0] == ':' then ("", Some(s[1..]))
    else var (head, rest) := SplitColon(s[1..]); ([s[0]] + head, rest)
  }

  lemma {:induction false} SplitAtFirstColon(head: string, rest: string)
    requires ':' !in head
    ensures SplitColon(head + ":" + rest) == (head, Some(rest))
  {
    var s := head + ":" + rest;
    if head == "" {
      assert s[1..] == rest;
    } else {
      assert head[0] in head;
      assert s[1..] == head[1..] + ":" + rest;
      SplitAtFirstColon(head[1..], rest);
      assert s[0] == head[0] && [head[0]] + head[1..] == head;
    }
  }

  /** The characters that trimming removes. */
  predicate IsWhitespace(c: char) {
    var n := c as int;
    9 <= n <= 13 || n in {0x20, 0x85, 0xA0, 0x1680, 0x2028, 0x2029, 0x202F, 0x205F, 0x3000} || 0x2000 <= n <= 0x200A
  }

  /** Trimming leaves nothing. */
  predicate Blank(s: string) { forall c <- s :: IsWhitespace(c) }

  // ----- the cursor

  function Print(k: Key): string {
    PrintInt(k.amount) + ":" + PrintInt(k.time) + ":" + k.id
  }

  function Parse(s: string): (r: Result<Key, CursorError>)
    ensures r.Ok? ==> IsI64(r.value.amount) && IsI64(r.value.time) && !Blank(r.value.id)
  {
    var (amountText, rest) := SplitColon(s);
    var amount := ParseI64(amountText);
    if amount.None? then Err(BadAmount)
    else if rest.None? then Err(BadFormat)
    else
      var (timeText, id) := SplitColon(rest.value);
      var time := ParseI64(timeText);
      if time.None? then Err(BadTime)
      else if id.None? then Err(BadFormat)
      else if Blank(id.value) then Err(BadId)
      else Ok(Key(amount.value, time.value, id.value))
  }

  /** A text is accepted exactly when it is a number, a colon, a number, a colon and an id that is not blank; what it
      means are these three. */
  lemma ParsesIff(s: string, k: Key)
    ensures Parse(s) == Ok(k) <==>
              && IsI64(k.amount) && IsI64(k.time) && !Blank(k.id)
              && exists i, j | 0 <= i < j < |s| ::
                   && s[i] == ':' && s[j] == ':' && s[j + 1..] == k.id
                   && Writes(s[..i], k.amount) && Writes(s[i + 1..j], k.time)
  {
    hide Writes, Parse, Blank;
    if Parse(s) == Ok(k) { AcceptedTextIs(s, k); }
    if i, j :| 0 <= i < j < |s| && s[i] == ':' && s[j] == ':' && s[j + 1..] == k.id
               && Writes(s[..i], k.amount) && Writes(s[i + 1..j], k.time) {
      assert s == s[..i] + ":" + (s[i + 1..j] + ":" + k.id);
      if IsI64(k.amount) && IsI64(k.time) && !Blank(k.id) { TextIsAccepted(s[..i], s[i + 1..j], k); }
    }
  }

  lemma AcceptedTextIs(s: string, k: Key)
    requires Parse(s) == Ok(k)
    ensures exists i, j | 0 <= i < j < |s| ::
              && s[i] == ':' && s[j] == ':' && s[j + 1..] == k.id
              && Writes(s[..i], k.amount) && Writes(s[i + 1..j], k.time)
  {
    hide Writes, ParseI64, Blank, SplitColon;
    var (amountText, rest) := SplitColon(s);
    var (timeText, id) := SplitColon(rest.value);
    ParsesIffWrites(amountText, k.amount);
    ParsesIffWrites(timeText, k.time);
    var i, j := |amountText|, |amountText| + 1 + |timeText|;
    assert s == amountText + ":" + timeText + ":" + k.id;
    assert s[..i] == amountText && s[i + 1..j] == timeText && s[j + 1..] == k.id;
    assert s[i] == ':' && s[j] == ':';
  }

  lemma TextIsAccepted(amountText: string, timeText: string, k: Key)
    requires Writes(amountText, k.amount) && Writes(timeText, k.time)
    requires IsI64(k.amount) && IsI64(k.time) && !Blank(k.id)
    ensures Parse(amountText + ":" + (timeText + ":" + k.id)) == Ok(k)
  {
    hide Writes, ParseI64, Blank, SplitColon;
    WrittenHasNoColon(amountText, k.amount);
    WrittenHasNoColon(timeText, k.time);
    SplitAtFirstColon(amountText, timeText + ":" + k.id);
    SplitAtFirstColon(timeText, k.id);
    ParsesIffWrites(amountText, k.amount);
    ParsesIffWrites(timeText, k.time);
  }

  lemma WrittenHasNoColon(text: string, n: int)
    requires Writes(text, n)
    ensures ':' !in text
  {
  }

  /** A refused text is blamed on the first part that is wrong: no number before the first colon, no such colon, no
      number before the second, no such colon, a blank id. */
  lemma RefusedTextNamesItsFault(s: string)
    ensures var (amountText, rest) := SplitColon(s);
            && (Parse(s) == Err(BadAmount) <==> forall n | IsI64(n) :: !Writes(amountText, n))
            && (Parse(s).Err? && Parse(s).error != BadAmount ==>
                  if rest.None? then Parse(s) == Err(BadFormat)
                  else
                    var (timeText, id) := SplitColon(rest.value);
                    && (Parse(s) == Err(BadTime) <==> forall n | IsI64(n) :: !Writes(timeText, n))
                    && (Parse(s) != Err(BadTime) ==> Parse(s) == Err(if id.None? then BadFormat else BadId)))
  {
    hide Writes, ParseI64, Blank, SplitColon;
    var (amountText, rest) := SplitColon(s);
    NumberIff(amountText);
    if rest.Some? { NumberIff(SplitColon(rest.value).0); }
  }

  lemma NumberIff(text: string)
    ensures ParseI64(text).None? <==> forall n | IsI64(n) :: !Writes(text, n)
  {
    hide Writes, ParseI64;
    forall n | IsI64(n) ensures ParseI64(text) == Some(n) <==> Writes(text, n) { ParsesIffWrites(text, n); }
    if ParseI64(text).Some? { ParsesIffWrites(text, ParseI64(text).value); }
  }

  lemma PrintedIntHasNoColon(n: int)
    ensures ':' !in PrintInt(n)
  {
  }

  /** A printed cursor parses back to itself exactly when its id is not blank; colons in the id do no harm. */
  lemma CursorRoundTripIff(k: Key)
    requires IsI64(k.amount) && IsI64(k.time)
    ensures Parse(Print(k)) == if Blank(k.id) then Err(BadId) else Ok(k)
  {
    PrintedIntHasNoColon(k.amount);
    PrintedIntHasNoColon(k.time);
    ParsePrintedInt(k.amount);
    ParsePrintedInt(k.time);
    var rest := PrintInt(k.time) + ":" + k.id;
    assert Print(k) == PrintInt(k.amount) + ":" + rest;
    SplitAtFirstColon(PrintInt(k.amount), rest);
    SplitAtFirstColon(PrintInt(k.time), k.id);
  }

  /** Whatever text is accepted, printing what it means gives a text that means the same. */
  lemma ParsedCursorsAreCanonical(s: string)
    requires Parse(s).Ok?
    ensures Parse(Print(Parse(s).value)) == Parse(s)
  {
    CursorRoundTripIff(Parse(s).value);
  }
}
