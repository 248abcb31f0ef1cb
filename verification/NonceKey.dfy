/** Message keys: a prefix and a nonce separated by an underscore
    (src/ic-websocket-gateway/src/canister_poller.rs:349-359). */
module NonceKey {
  import opened Basics

  /** The pieces of `s` between underscores; there is always at least one. */
  function Split(s: string): (pieces: seq<string>)
    ensures |pieces| >= 1
  {
    if s == "" then [""]
    else if s[0] == '_' then [""] + Split(s[1..])
    else
      var rest := Split(s[1..]);
      [[s[0]] + rest[0]] + rest[1..]
  }

  predicate IsDigit(c: char) { '0' <= c <= '9' }

  function DigitValue(c: char): nat
    requires IsDigit(c)
  {
    c as int - '0' as int
  }

  /** Left-to-right accumulation that gives up on the first overflow of 64 bits. */
  function ParseDigits(s: string, acc: u64): Option<u64> {
    if s == "" then Some(acc)
    else if !IsDigit(s[0]) then None
    else if acc * 10 > U64_MAX then None
    else if acc * 10 + DigitValue(s[0]) > U64_MAX then None
    else ParseDigits(s[1..], acc * 10 + DigitValue(s[0]))
  }

  /** The standard library's parser of unsigned 64-bit numbers: an optional plus sign and decimal digits. */
  function ParseU64(s: string): Option<u64> {
    if s == "" || s == "+" || s == "-" then None
    else if s[0] == '+' then ParseDigits(s[1..], 0)
    else ParseDigits(s, 0)
  }

  function GetNonceFromMessage(key: string): Option<u64> {
    var pieces := Split(key);
    ParseU64(pieces[|pieces| - 1])
  }

  // ---- What a numeral means, read from its last digit ----

  predicate IsNumeral(s: string) {
    s != "" && forall i :: 0 <= i < |s| ==> IsDigit(s[i])
  }

  function NumeralValue(s: string): nat
    requires forall i :: 0 <= i < |s| ==> IsDigit(s[i])
  {
    if s == "" then 0
    else 10 * NumeralValue(s[..|s| - 1]) + DigitValue(s[|s| - 1])
  }

  /** The canonical decimal numeral of `n`. */
  function Decimal(n: nat): (s: string)
    ensures IsNumeral(s)
    ensures NumeralValue(s) == n
  {
    var digit := ['0' + (n % 10) as char];
    if n < 10 then digit
    else
      var high := Decimal(n / 10);
      assert (high + digit)[..|high + digit| - 1] == high;
      high + digit
  }

  /** `s` without one leading plus sign. */
  function Unsigned(s: string): string {
    if s != "" && s[0] == '+' then s[1..] else s
  }

  // ---- Proofs ----

  /** Accumulating from the left: the value of `s` read after `acc`. */
  ghost function Accumulate(s: string, acc: nat): (v: nat)
    requires forall i :: 0 <= i < |s| ==> IsDigit(s[i])
    ensures v >= acc
  {
    if s == "" then acc else Accumulate(s[1..], acc * 10 + DigitValue(s[0]))
  }

  lemma {:induction false} AccumulateSnoc(s: string, acc: nat)
    requires s != "" && forall i :: 0 <= i < |s| ==> IsDigit(s[i])
    ensures Accumulate(s, acc) == 10 * Accumulate(s[..|s| - 1], acc) + DigitValue(s[|s| - 1])
  {
    if |s| > 1 {
      AccumulateSnoc(s[1..], acc * 10 + DigitValue(s[0]));
      assert s[1..][..|s| - 2] == s[..|s| - 1][1..];
    }
  }

  lemma {:induction false} AccumulateIsValue(s: string)
    requires forall i :: 0 <= i < |s| ==> IsDigit(s[i])
    ensures Accumulate(s, 0) == NumeralValue(s)
  {
    if s != "" {
      AccumulateSnoc(s, 0);
      AccumulateIsValue(s[..|s| - 1]);
    }
  }

  lemma {:induction false} ParseDigitsAccumulates(s: string, acc: u64)
    ensures ParseDigits(s, acc) ==
            if (forall i :: 0 <= i < |s| ==> IsDigit(s[i])) && Accumulate(s, acc) <= U64_MAX
            then Some(Accumulate(s, acc)) else None
  {
    if s != "" {
      var tail := s[1..];
      if IsDigit(s[0]) {
        assert (forall i :: 0 <= i < |s| ==> IsDigit(s[i])) <==> (forall i :: 0 <= i < |tail| ==> IsDigit(tail[i])) by {
          assert forall i :: 0 < i < |s| ==> s[i] == tail[i - 1];
        }
        if acc * 10 + DigitValue(s[0]) <= U64_MAX {
          ParseDigitsAccumulates(tail, acc * 10 + DigitValue(s[0]));
        }
      }
    }
  }

  /** The parser accepts exactly the numerals, with or without one plus sign, whose value fits in 64 bits,
      and returns that value. */
  lemma ParseU64IsNumeralValue(s: string)
    ensures ParseU64(s) ==
            if IsNumeral(Unsigned(s)) && NumeralValue(Unsigned(s)) <= U64_MAX
            then Some(NumeralValue(Unsigned(s))) else None
  {
    var t := Unsigned(s);
    ParseDigitsAccumulates(t, 0);
    if forall i :: 0 <= i < |t| ==> IsDigit(t[i]) {
      AccumulateIsValue(t);
    }
    if s == "-" {
      assert !IsDigit(t[0]);
    }
  }

  lemma {:induction false} SplitLast(prefix: string, last: string)
    requires '_' !in last
    ensures Split(prefix + "_" + last)[|Split(prefix + "_" + last)| - 1] == last
  {
    var s := prefix + "_" + last;
    if prefix == "" {
      assert s[1..] == last;
      SplitWhole(last);
    } else {
      assert s[1..] == prefix[1..] + "_" + last;
      SplitLast(prefix[1..], last);
      SplitSeparates(prefix[1..], last);
    }
  }

  lemma {:induction false} SplitWhole(s: string)
    requires '_' !in s
    ensures Split(s) == [s]
  {
    if s != "" {
      SplitWhole(s[1..]);
      assert [s[0]] + s[1..] == s;
    }
  }

  lemma {:induction false} SplitSeparates(prefix: string, last: string)
    ensures |Split(prefix + "_" + last)| >= 2
  {
    var s := prefix + "_" + last;
    if prefix != "" {
      assert s[1..] == prefix[1..] + "_" + last;
      SplitSeparates(prefix[1..], last);
    }
  }

  /** Every key is its last piece, alone or after a prefix and an underscore. */
  lemma {:induction false} LastPiece(key: string) returns (prefix: string, last: string)
    ensures '_' !in last
    ensures key == last || key == prefix + "_" + last
    ensures Split(key)[|Split(key)| - 1] == last
  {
    if '_' !in key {
      SplitWhole(key);
      prefix, last := "", key;
    } else if key[0] == '_' && '_' !in key[1..] {
      prefix, last := "", key[1..];
      SplitWhole(last);
    } else {
      var p;
      p, last := LastPiece(key[1..]);
      prefix := [key[0]] + p;
      assert key == [key[0]] + key[1..];
      assert key[1..] == p + "_" + last;
      assert key == prefix + "_" + last;
      SplitLast(prefix, last);
    }
  }

  /** The key built by the canister for nonce `n` is read back as `n`, whatever the prefix. */
  lemma NonceRoundTrip(prefix: string, n: u64)
    ensures GetNonceFromMessage(prefix + "_" + Decimal(n)) == Some(n)
  {
    var digits := Decimal(n);
    assert '_' !in digits by {
      assert !IsDigit('_');
    }
    SplitLast(prefix, digits);
    ParseU64IsNumeralValue(digits);
    assert digits[0] != '+';
  }

  /** A key is read as `v` exactly when what follows its last underscore (all of it, when there is none)
      is a numeral of `v`, optionally signed with a plus, and `v` fits in 64 bits. */
  lemma NonceOnlyFromNumeral(key: string, prefix: string, last: string, v: u64)
    requires '_' !in last
    requires key == last || key == prefix + "_" + last
    ensures GetNonceFromMessage(key) == Some(v) <==>
            IsNumeral(Unsigned(last)) && NumeralValue(Unsigned(last)) == v
  {
    if key == last {
      SplitWhole(key);
    } else {
      SplitLast(prefix, last);
    }
    ParseU64IsNumeralValue(last);
  }
}
