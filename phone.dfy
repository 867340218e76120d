/**
  The `Phone` value object: a string of the form `+<1-3 digits>.<3 or more digits>`,
  that is the language of the pattern `^\+[0-9]{1,3}\.[0-9]{3,}$`.
 */
module Phone {
  import opened Chars
  import opened ErrorService
  import opened Errors

  /** The recogniser, a left-to-right scan: a `+`, then the country code. */
  predicate ValidatePhone(s: string) {
    |s| > 0 && s[0] == '+' && CountryCode(s[1..], 0)
  }

  /** Scanning the country code, of which `n` digits were already read. */
  predicate CountryCode(s: string, n: nat)
    decreases |s|
  {
    if s == [] then false
    else if IsDigit(s[0]) then n < 3 && CountryCode(s[1..], n + 1)
    else s[0] == '.' && 1 <= n && Subscriber(s[1..], 0)
  }

  /** Scanning the digits after the dot, of which `n` were already read. */
  predicate Subscriber(s: string, n: nat)
    decreases |s|
  {
    if s == [] then 3 <= n
    else IsDigit(s[0]) && Subscriber(s[1..], n + 1)
  }

  /** `s` splits as `+`, `k` digits, `.`, then three or more digits. */
  ghost predicate PhoneSplit(s: string, k: nat) {
    && 1 <= k <= 3
    && k + 5 <= |s|
    && s[0] == '+'
    && AllDigits(s[1..k + 1])
    && s[k + 1] == '.'
    && AllDigits(s[k + 2..])
  }

  /** The pattern read declaratively: some country-code length splits `s`. */
  ghost predicate PhoneShape(s: string) {
    exists k: nat :: PhoneSplit(s, k)
  }

  lemma {:induction false} SubscriberIff(s: string, n: nat)
    ensures Subscriber(s, n) <==> AllDigits(s) && 3 <= n + |s|
    decreases |s|
  {
    if s != [] {
      SubscriberIff(s[1..], n + 1);
      if IsDigit(s[0]) && AllDigits(s[1..]) {
        assert AllDigits(s) by {
          forall i | 0 <= i < |s| ensures IsDigit(s[i]) {
            if i > 0 { assert s[i] == s[1..][i - 1]; }
          }
        }
      }
      if AllDigits(s) {
        assert AllDigits(s[1..]) by {
          forall i | 0 <= i < |s| - 1 ensures IsDigit(s[1..][i]) {
            assert s[1..][i] == s[i + 1];
          }
        }
      }
    }
  }

  lemma DigitPrefixStartsWithDigit(s: string, j: nat)
    requires j <= |s|
    ensures AllDigits(s[..j]) && 0 < j ==> IsDigit(s[0])
  {
    if 0 < j { assert s[..j][0] == s[0]; }
  }

  /** After `n` country-code digits, `s` holds `j` more, the dot, and the subscriber digits. */
  ghost predicate CodeSplit(s: string, n: nat, j: nat) {
    && j + 4 <= |s|
    && 1 <= n + j <= 3
    && AllDigits(s[..j])
    && s[j] == '.'
    && AllDigits(s[j + 1..])
  }

  /** A country-code digit in front of a split after `n + 1` digits gives a split after `n`. */
  lemma CodeSplitCons(s: string, n: nat, j: nat)
    requires s != [] && IsDigit(s[0]) && CodeSplit(s[1..], n + 1, j)
    ensures CodeSplit(s, n, j + 1)
  {
    assert s[1..][..j] == s[1..j + 1];
    assert s[1..][j + 1..] == s[j + 2..];
    var prefix := s[..j + 1];
    forall i | 0 <= i < j + 1 ensures IsDigit(prefix[i]) {
      if i > 0 { assert prefix[i] == s[1..j + 1][i - 1]; }
    }
  }

  /** Dropping a leading country-code digit from a split after `n` digits gives a split after `n + 1`. */
  lemma CodeSplitTail(s: string, n: nat, j: nat)
    requires s != [] && IsDigit(s[0]) && CodeSplit(s, n, j)
    ensures 1 <= j && CodeSplit(s[1..], n + 1, j - 1)
  {
    DigitPrefixStartsWithDigit(s, j);
    assert s[1..][..j - 1] == s[1..j];
    assert s[1..][j..] == s[j + 1..];
    forall i | 0 <= i < j - 1 ensures IsDigit(s[1..j][i]) {
      assert s[1..j][i] == s[..j][i + 1];
    }
  }

  lemma {:induction false} CountryCodeIff(s: string, n: nat)
    requires n <= 3
    ensures CountryCode(s, n) <==> exists j: nat :: CodeSplit(s, n, j)
    decreases |s|
  {
    if s == [] {
      assert forall j: nat :: !CodeSplit(s, n, j);
    } else if IsDigit(s[0]) {
      if n < 3 {
        CountryCodeIff(s[1..], n + 1);
        if CountryCode(s, n) {
          var j: nat :| CodeSplit(s[1..], n + 1, j);
          CodeSplitCons(s, n, j);
        }
        if exists j: nat :: CodeSplit(s, n, j) {
          var j: nat :| CodeSplit(s, n, j);
          CodeSplitTail(s, n, j);
        }
      } else {
        forall j: nat | CodeSplit(s, n, j) ensures false {
        }
      }
    } else {
      SubscriberIff(s[1..], 0);
      if CountryCode(s, n) {
        assert s[1..] == s[0 + 1..];
        assert CodeSplit(s, n, 0);
      }
      if exists j: nat :: CodeSplit(s, n, j) {
        var j: nat :| CodeSplit(s, n, j);
        DigitPrefixStartsWithDigit(s, j);
        assert s[1..] == s[j + 1..];
      }
    }
  }

  /** The scanner accepts exactly the strings of the pattern. */
  lemma ValidatePhoneIff(s: string)
    ensures ValidatePhone(s) <==> PhoneShape(s)
  {
    if |s| > 0 && s[0] == '+' {
      CountryCodeIff(s[1..], 0);
      if ValidatePhone(s) {
        var j: nat :| CodeSplit(s[1..], 0, j);
        assert s[1..][..j] == s[1..j + 1];
        assert s[1..][j + 1..] == s[j + 2..];
        assert PhoneSplit(s, j);
      }
      if PhoneShape(s) {
        var k: nat :| PhoneSplit(s, k);
        assert s[1..][..k] == s[1..k + 1];
        assert s[1..][k + 1..] == s[k + 2..];
        assert CodeSplit(s[1..], 0, k);
      }
    }
  }

  /** The value object: its constructor is private, so every `Phone` holds a valid string. */
  datatype PhoneNumber = PhoneNumber(value: string)
  type Phone = p: PhoneNumber | ValidatePhone(p.value) witness PhoneNumber("+1.000")

  /** `Phone.of`: wraps a valid string unchanged, fails with `ErrorInvalidPhoneNumber` otherwise. */
  function Of(value: string): (r: Result<Phone, Error>)
    ensures r.Ok? <==> PhoneShape(value)
    ensures r.Ok? ==> r.value.value == value
    ensures r.Err? ==> r.error == ErrorInvalidPhoneNumber
  {
    ValidatePhoneIff(value);
    if ValidatePhone(value) then Ok(PhoneNumber(value)) else Err(ErrorInvalidPhoneNumber)
  }

  /** Every accepted number has at least six characters and starts with `+`. */
  lemma AcceptedPhoneBounds(s: string)
    requires ValidatePhone(s)
    ensures 6 <= |s| && s[0] == '+'
  {
    ValidatePhoneIff(s);
  }

  /** Two examples from the use-case tests. */
  lemma PhoneExamples()
    ensures ValidatePhone("+33.612345678")
    ensures !ValidatePhone("12345")
  {
    var good := "+33.612345678";
    assert good[1..3] == "33" && good[4..] == "612345678";
    assert PhoneSplit(good, 2);
    ValidatePhoneIff(good);
  }
}
