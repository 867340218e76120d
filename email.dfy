/**
  The `Email` value object: a string in the language of the pattern
  `^\w+([.-]?\w+)*@\w+([.-]?\w+)*(\.\w{2,3})+$`, where `\w` is `[A-Za-z0-9_]`.
 */
module Email {
  import opened Chars
  import opened ErrorService
  import opened Errors

  // ---------------------------------------------------------------------------
  // The recogniser: the pattern transcribed piece by piece. Each existential
  // ranges over the split points a backtracking matcher would try.
  // ---------------------------------------------------------------------------

  /** `\w+` */
  predicate WordRun(x: string) {
    |x| > 0 && forall i :: 0 <= i < |x| ==> IsWord(x[i])
  }

  /** `[.-]?\w+` */
  predicate Group(x: string) {
    WordRun(x) || (|x| >= 2 && IsSeparator(x[0]) && WordRun(x[1..]))
  }

  /** `([.-]?\w+)*` */
  predicate Groups(x: string)
    decreases |x|
  {
    x == [] || exists j | 1 <= j <= |x| :: Group(x[..j]) && Groups(x[j..])
  }

  /** `\w+([.-]?\w+)*`, the local part and the start of the domain */
  predicate Dotted(x: string) {
    exists j | 1 <= j <= |x| :: WordRun(x[..j]) && Groups(x[j..])
  }

  /** `\.\w{2,3}` */
  predicate TopLevel(x: string) {
    (|x| == 3 || |x| == 4) && x[0] == '.' && WordRun(x[1..])
  }

  /** `(\.\w{2,3})+` */
  predicate TopLevels(x: string)
    decreases |x|
  {
    exists j | 3 <= j <= 4 && j <= |x| :: TopLevel(x[..j]) && (j == |x| || TopLevels(x[j..]))
  }

  /** `\w+([.-]?\w+)*(\.\w{2,3})+` */
  predicate DomainPart(y: string) {
    exists j, k | 1 <= j <= k <= |y| :: WordRun(y[..j]) && Groups(y[j..k]) && TopLevels(y[k..])
  }

  /** `validateEmail`: the local part, `@`, the domain, anchored at both ends. */
  predicate ValidateEmail(s: string) {
    exists i | 0 <= i < |s| :: s[i] == '@' && Dotted(s[..i]) && DomainPart(s[i + 1..])
  }

  // ---------------------------------------------------------------------------
  // The same language described by properties of the characters.
  // ---------------------------------------------------------------------------

  /** Every character is a word character or a separator. */
  ghost predicate WordsAndSeparators(x: string) {
    forall i :: 0 <= i < |x| ==> IsWord(x[i]) || IsSeparator(x[i])
  }

  /** Every separator after the first position follows a word character. */
  ghost predicate NoDoubledSeparator(x: string) {
    forall i :: 0 < i < |x| && IsSeparator(x[i]) ==> IsWord(x[i - 1])
  }

  /** What `([.-]?\w+)*` matches: empty, or ending in a word character with no two separators in a row. */
  ghost predicate GroupsShape(x: string) {
    x == [] || (WordsAndSeparators(x) && NoDoubledSeparator(x) && IsWord(x[|x| - 1]))
  }

  /** What `\w+([.-]?\w+)*` matches: the above, non-empty and starting with a word character. */
  ghost predicate DottedShape(x: string) {
    |x| > 0 && IsWord(x[0]) && GroupsShape(x)
  }

  /** `y` ends with a dot and `t` word characters, 2 <= t <= 3, with something before the dot. */
  ghost predicate TopLevelSplit(y: string, t: nat) {
    && 2 <= t <= 3
    && t + 2 <= |y|
    && y[|y| - t - 1] == '.'
    && forall i :: |y| - t <= i < |y| ==> IsWord(y[i])
  }

  ghost predicate DomainShape(y: string) {
    DottedShape(y) && exists t: nat :: TopLevelSplit(y, t)
  }

  ghost predicate EmailSplit(s: string, i: nat) {
    i < |s| && s[i] == '@' && DottedShape(s[..i]) && DomainShape(s[i + 1..])
  }

  ghost predicate EmailShape(s: string) {
    exists i: nat :: EmailSplit(s, i)
  }

  // ---------------------------------------------------------------------------
  // The two descriptions agree.
  // ---------------------------------------------------------------------------

  lemma GroupsShapeConcat(a: string, b: string)
    requires GroupsShape(a) && GroupsShape(b)
    ensures GroupsShape(a + b)
  {
    if a != [] && b != [] {
      var x := a + b;
      forall i | 0 <= i < |x| ensures IsWord(x[i]) || IsSeparator(x[i]) {
        if i >= |a| { assert x[i] == b[i - |a|]; }
      }
      forall i | 0 < i < |x| && IsSeparator(x[i]) ensures IsWord(x[i - 1]) {
        if i > |a| { assert x[i] == b[i - |a|] && x[i - 1] == b[i - 1 - |a|]; }
        else if i == |a| { assert x[i - 1] == a[|a| - 1]; }
      }
      assert x[|x| - 1] == b[|b| - 1];
    } else if a == [] {
      assert a + b == b;
    } else {
      assert a + b == a;
    }
  }

  lemma GroupShape(g: string)
    requires Group(g)
    ensures GroupsShape(g) && |g| > 0
  {
    if !WordRun(g) {
      forall i | 0 < i < |g| ensures IsWord(g[i]) {
        assert g[i] == g[1..][i - 1];
      }
    }
  }

  lemma GroupsShapeSuffix(x: string, j: nat)
    requires GroupsShape(x) && j <= |x|
    ensures GroupsShape(x[j..])
  {
    var rest := x[j..];
    if rest != [] {
      forall i | 0 <= i < |rest| ensures IsWord(rest[i]) || IsSeparator(rest[i]) {
        assert rest[i] == x[i + j];
      }
      forall i | 0 < i < |rest| && IsSeparator(rest[i]) ensures IsWord(rest[i - 1]) {
        assert rest[i] == x[i + j] && rest[i - 1] == x[i + j - 1];
      }
      assert rest[|rest| - 1] == x[|x| - 1];
    }
  }

  /** A non-empty shaped string starts with a group of one or two characters. */
  lemma FirstGroup(x: string) returns (j: nat)
    requires GroupsShape(x) && x != []
    ensures 1 <= j <= |x| && Group(x[..j])
  {
    if IsSeparator(x[0]) {
      assert !IsWord(x[0]);
      assert 1 < |x|;
      j := 2;
      assert x[..j][1..] == [x[1]];
    } else {
      j := 1;
    }
  }

  lemma {:induction false} GroupsSound(x: string)
    requires Groups(x)
    ensures GroupsShape(x)
    decreases |x|
  {
    if x != [] {
      var j :| 1 <= j <= |x| && Group(x[..j]) && Groups(x[j..]);
      GroupsSound(x[j..]);
      GroupShape(x[..j]);
      GroupsShapeConcat(x[..j], x[j..]);
      assert x[..j] + x[j..] == x;
    }
  }

  lemma {:induction false} GroupsComplete(x: string)
    requires GroupsShape(x)
    ensures Groups(x)
    decreases |x|
  {
    if x != [] {
      var j := FirstGroup(x);
      GroupsShapeSuffix(x, j);
      GroupsComplete(x[j..]);
    }
  }

  lemma GroupsIff(x: string)
    ensures Groups(x) <==> GroupsShape(x)
  {
    if Groups(x) { GroupsSound(x); }
    if GroupsShape(x) { GroupsComplete(x); }
  }

  lemma DottedIff(x: string)
    ensures Dotted(x) <==> DottedShape(x)
  {
    if Dotted(x) {
      var j :| 1 <= j <= |x| && WordRun(x[..j]) && Groups(x[j..]);
      GroupsIff(x[j..]);
      assert GroupsShape(x[..j]) by {
        forall i | 0 <= i < j ensures IsWord(x[..j][i]) { }
      }
      GroupsShapeConcat(x[..j], x[j..]);
      assert x[..j] + x[j..] == x;
      assert x[0] == x[..j][0];
    }
    if DottedShape(x) {
      GroupsShapeSuffix(x, 1);
      GroupsIff(x[1..]);
      assert WordRun(x[..1]);
    }
  }

  lemma GroupsShapePrefix(x: string, k: nat)
    requires GroupsShape(x) && 0 < k <= |x| && IsWord(x[k - 1])
    ensures GroupsShape(x[..k])
  {
    var p := x[..k];
    forall i | 0 <= i < |p| ensures IsWord(p[i]) || IsSeparator(p[i]) {
      assert p[i] == x[i];
    }
    forall i | 0 < i < |p| && IsSeparator(p[i]) ensures IsWord(p[i - 1]) {
      assert p[i] == x[i] && p[i - 1] == x[i - 1];
    }
  }

  /** `c` ends with a dot followed by `t` word characters, 2 <= t <= 3. */
  ghost predicate EndsInTopLevel(c: string, t: nat) {
    && 2 <= t <= 3
    && t + 1 <= |c|
    && c[|c| - t - 1] == '.'
    && forall i :: |c| - t <= i < |c| ==> IsWord(c[i])
  }

  lemma EndsInTopLevelExtend(a: string, b: string, t: nat)
    requires EndsInTopLevel(b, t)
    ensures EndsInTopLevel(a + b, t)
  {
    var x := a + b;
    assert x[|x| - t - 1] == b[|b| - t - 1];
    forall i | |x| - t <= i < |x| ensures IsWord(x[i]) {
      assert x[i] == b[i - |a|];
    }
  }

  lemma TopLevelShape(c: string)
    requires TopLevel(c)
    ensures GroupsShape(c) && EndsInTopLevel(c, |c| - 1)
  {
    assert Group(c);
    GroupShape(c);
    forall i | 1 <= i < |c| ensures IsWord(c[i]) {
      assert c[i] == c[1..][i - 1];
    }
  }

  /** `(\.\w{2,3})+` matches only shaped strings ending in a dot and two or three word characters. */
  lemma TopLevelsStep(head: string, rest: string, t: nat)
    requires TopLevel(head) && GroupsShape(rest) && EndsInTopLevel(rest, t)
    ensures GroupsShape(head + rest) && EndsInTopLevel(head + rest, t)
  {
    TopLevelShape(head);
    GroupsShapeConcat(head, rest);
    EndsInTopLevelExtend(head, rest, t);
  }

  lemma {:induction false} TopLevelsSound(c: string) returns (t: nat)
    requires TopLevels(c)
    ensures GroupsShape(c) && EndsInTopLevel(c, t)
    decreases |c|
  {
    var j: nat :| 3 <= j <= 4 && j <= |c| && TopLevel(c[..j]) && (j == |c| || TopLevels(c[j..]));
    var head, rest := c[..j], c[j..];
    if j == |c| {
      TopLevelShape(head);
      assert head == c;
      t := j - 1;
    } else {
      t := TopLevelsSound(rest);
      TopLevelsStep(head, rest, t);
      assert head + rest == c;
    }
  }


  lemma DomainFromParts(w: string, g: string, c: string, t: nat)
    requires WordRun(w) && GroupsShape(g) && GroupsShape(c) && EndsInTopLevel(c, t)
    ensures DomainShape(w + g + c)
  {
    var y := w + g + c;
    assert GroupsShape(w);
    GroupsShapeConcat(w, g);
    GroupsShapeConcat(w + g, c);
    EndsInTopLevelExtend(w + g, c, t);
    assert y[0] == w[0];
    assert TopLevelSplit(y, t);
  }

  lemma DomainSoundParts(w: string, g: string, c: string)
    requires WordRun(w) && Groups(g) && TopLevels(c)
    ensures DomainShape(w + g + c)
  {
    var t := TopLevelsSound(c);
    GroupsIff(g);
    DomainFromParts(w, g, c, t);
  }

  lemma DomainSound(y: string)
    requires DomainPart(y)
    ensures DomainShape(y)
  {
    var j: nat, k: nat :| 1 <= j <= k <= |y| && WordRun(y[..j]) && Groups(y[j..k]) && TopLevels(y[k..]);
    var w, g, c := y[..j], y[j..k], y[k..];
    DomainSoundParts(w, g, c);
    SplitThree(y, j, k);
  }

  lemma SplitThree(y: string, j: nat, k: nat)
    requires j <= k <= |y|
    ensures y[..j] + y[j..k] + y[k..] == y
  {
  }

  lemma DomainComplete(y: string)
    requires DomainShape(y)
    ensures DomainPart(y)
  {
    var t: nat :| TopLevelSplit(y, t);
    var k := |y| - t - 1;
    assert IsWord(y[k - 1]);
    var p := y[..k];
    GroupsShapePrefix(y, k);
    assert p[0] == y[0];
    DottedIff(p);
    var j :| 1 <= j <= |p| && WordRun(p[..j]) && Groups(p[j..]);
    assert y[..j] == p[..j] && y[j..k] == p[j..];
    var c := y[k..];
    assert TopLevel(c[..|c|]) by {
      assert c[..|c|] == c;
      assert forall i :: 0 <= i < |c[1..]| ==> c[1..][i] == y[k + 1 + i];
    }
    assert TopLevels(c);
  }

  lemma DomainIff(y: string)
    ensures DomainPart(y) <==> DomainShape(y)
  {
    if DomainPart(y) { DomainSound(y); }
    if DomainShape(y) { DomainComplete(y); }
  }

  /** The recogniser accepts exactly the strings of the character-level description. */
  lemma ValidateEmailIff(s: string)
    ensures ValidateEmail(s) <==> EmailShape(s)
  {
    if ValidateEmail(s) {
      var i :| 0 <= i < |s| && s[i] == '@' && Dotted(s[..i]) && DomainPart(s[i + 1..]);
      DottedIff(s[..i]);
      DomainIff(s[i + 1..]);
      assert EmailSplit(s, i);
    }
    if EmailShape(s) {
      var i: nat :| EmailSplit(s, i);
      DottedIff(s[..i]);
      DomainIff(s[i + 1..]);
    }
  }

  // ---------------------------------------------------------------------------
  // The value object.
  // ---------------------------------------------------------------------------

  datatype EmailAddress = EmailAddress(value: string)
  type Email = e: EmailAddress | ValidateEmail(e.value) witness SampleAddress()

  /** `Email.of`: wraps a valid string unchanged, fails with `ErrorInvalidEmail` otherwise. */
  function Of(value: string): (r: Result<Email, Error>)
    ensures r.Ok? <==> EmailShape(value)
    ensures r.Ok? ==> r.value.value == value
    ensures r.Err? ==> r.error == ErrorInvalidEmail
  {
    ValidateEmailIff(value);
    if ValidateEmail(value) then Ok(EmailAddress(value)) else Err(ErrorInvalidEmail)
  }

  /** A shortest accepted address, the witness that `Email` is inhabited. */
  function SampleAddress(): (e: EmailAddress)
    ensures e.value == "a@b.cd"
    ensures ValidateEmail(e.value)
  {
    var s := "a@b.cd";
    assert s[..1] == "a" && s[2..] == "b.cd";
    assert TopLevelSplit("b.cd", 2);
    assert EmailSplit(s, 1);
    ValidateEmailIff(s);
    EmailAddress(s)
  }

  lemma NoAtInShape(x: string)
    requires GroupsShape(x)
    ensures forall j :: 0 <= j < |x| ==> x[j] != '@'
  {
  }

  lemma SplitOneAt(s: string, i: nat)
    requires EmailSplit(s, i)
    ensures forall j :: 0 <= j < |s| && s[j] == '@' ==> j == i
  {
    var local, domain := s[..i], s[i + 1..];
    NoAtInShape(local);
    NoAtInShape(domain);
    forall j | 0 <= j < |s| && j != i ensures s[j] != '@' {
      if j < i {
        assert s[j] == local[j];
      } else {
        assert s[j] == domain[j - i - 1];
      }
    }
  }

  /** An accepted address holds exactly one `@`, since neither part may contain one. */
  lemma AcceptedEmailOneAt(s: string)
    requires ValidateEmail(s)
    ensures exists i :: 0 <= i < |s| && s[i] == '@' && forall j :: 0 <= j < |s| && s[j] == '@' ==> j == i
  {
    ValidateEmailIff(s);
    var i: nat :| EmailSplit(s, i);
    SplitOneAt(s, i);
  }

  lemma SplitEnds(s: string, i: nat)
    requires EmailSplit(s, i)
    ensures |s| >= 6 && IsWord(s[0]) && 0 < i < |s| - 1 && IsWord(s[i - 1]) && IsWord(s[i + 1])
    ensures exists t: nat :: EndsInTopLevel(s, t)
  {
    var local, domain := s[..i], s[i + 1..];
    assert s[0] == local[0] && s[i - 1] == local[i - 1];
    assert s[i + 1] == domain[0];
    var t: nat :| TopLevelSplit(domain, t);
    EndsInTopLevelExtend(s[..i + 1], domain, t);
    assert s[..i + 1] + domain == s;
  }

  /**
    An accepted address starts with a word character, has word characters
    on both sides of the `@`, and ends with a dot and two or three word characters.
   */
  lemma AcceptedEmailEnds(s: string)
    requires ValidateEmail(s)
    ensures |s| >= 6 && IsWord(s[0])
    ensures exists i :: 0 < i < |s| - 1 && s[i] == '@' && IsWord(s[i - 1]) && IsWord(s[i + 1])
    ensures exists t: nat :: EndsInTopLevel(s, t)
  {
    ValidateEmailIff(s);
    var i: nat :| EmailSplit(s, i);
    SplitEnds(s, i);
  }

  lemma SplitSeparators(s: string, i: nat)
    requires EmailSplit(s, i)
    ensures !IsSeparator(s[0])
    ensures forall k :: 0 < k < |s| && IsSeparator(s[k]) ==> IsWord(s[k - 1])
  {
    var local, domain := s[..i], s[i + 1..];
    assert s[0] == local[0] && s[i + 1] == domain[0];
    forall k | 0 < k < |s| && IsSeparator(s[k]) ensures IsWord(s[k - 1]) {
      if k < i {
        assert s[k] == local[k] && s[k - 1] == local[k - 1];
      } else if k > i + 1 {
        assert s[k] == domain[k - i - 1] && s[k - 1] == domain[k - i - 2];
      }
    }
  }

  /** In an accepted address every `.` or `-` directly follows a word character: none leads, none is doubled. */
  lemma AcceptedEmailSeparators(s: string)
    requires ValidateEmail(s)
    ensures !IsSeparator(s[0])
    ensures forall k :: 0 < k < |s| && IsSeparator(s[k]) ==> IsWord(s[k - 1])
  {
    ValidateEmailIff(s);
    var i: nat :| EmailSplit(s, i);
    SplitSeparators(s, i);
  }

  lemma AcceptedBySplit(s: string, i: nat)
    requires EmailSplit(s, i)
    ensures ValidateEmail(s)
  {
    ValidateEmailIff(s);
  }

  /** An address is accepted when its two halves around `@` are accepted as local part and domain. */
  lemma AcceptedByParts(local: string, domain: string, t: nat)
    requires WordRun(local) && DottedShape(domain) && TopLevelSplit(domain, t)
    ensures ValidateEmail(local + "@" + domain)
  {
    var s := local + "@" + domain;
    assert s[..|local|] == local && s[|local| + 1..] == domain;
    AcceptedBySplit(s, |local|);
  }

  /** `local@host.tld` is accepted when the three are runs of word characters and `tld` has two or three. */
  lemma SimpleAccepted(local: string, host: string, tld: string)
    requires WordRun(local) && WordRun(host) && WordRun(tld) && 2 <= |tld| <= 3
    ensures ValidateEmail(local + "@" + (host + "." + tld))
  {
    var domain := host + "." + tld;
    forall i | 0 <= i < |domain| && i != |host| ensures IsWord(domain[i]) {
      if i < |host| { assert domain[i] == host[i]; }
      else { assert domain[i] == tld[i - |host| - 1]; }
    }
    assert domain[0] == host[0] && domain[|domain| - 1] == tld[|tld| - 1];
    assert TopLevelSplit(domain, |tld|) by {
      forall i | |domain| - |tld| <= i < |domain| ensures IsWord(domain[i]) {
        assert domain[i] == tld[i - |host| - 1];
      }
    }
    AcceptedByParts(local, domain, |tld|);
  }

  /** Addresses from the use-case tests that are accepted. */
  lemma AcceptedEmailExamples()
    ensures ValidateEmail("john@doe.com")
    ensures ValidateEmail("super@drive.com")
    ensures ValidateEmail("drive@your.car")
  {
    JohnDoeAccepted();
    SuperDriveAccepted();
    DriveYourCarAccepted();
  }

  lemma JohnDoeAccepted()
    ensures ValidateEmail("john@doe.com")
  {
    assert "john@doe.com" == "john" + "@" + ("doe" + "." + "com");
    assert WordRun("john") && WordRun("doe") && WordRun("com");
    SimpleAccepted("john", "doe", "com");
  }

  lemma SuperDriveAccepted()
    ensures ValidateEmail("super@drive.com")
  {
    assert "super@drive.com" == "super" + "@" + ("drive" + "." + "com");
    assert WordRun("super") && WordRun("drive") && WordRun("com");
    SimpleAccepted("super", "drive", "com");
  }

  lemma DriveYourCarAccepted()
    ensures ValidateEmail("drive@your.car")
  {
    assert "drive@your.car" == "drive" + "@" + ("your" + "." + "car");
    assert WordRun("drive") && WordRun("your") && WordRun("car");
    SimpleAccepted("drive", "your", "car");
  }

  /** Refused addresses: no top-level domain, and empty. */
  lemma RefusedEmailExamples()
    ensures !ValidateEmail("super@admin")
    ensures !ValidateEmail("a@b")
    ensures !ValidateEmail("")
  {
    var bad := "super@admin";
    if ValidateEmail(bad) {
      AcceptedEmailEnds(bad);
    }
    var short := "a@b";
    if ValidateEmail(short) {
      AcceptedEmailEnds(short);
    }
  }
}
