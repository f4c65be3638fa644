/** The address syntax check of the verifier: `re.match` of the pattern
    `^[a-zA-Z0-9._%+-]+@[a-zA-Z0-9.-]+\.[a-zA-Z]{2,}$` against the whole
    address. This is deliberately not RFC 5322: it is the pattern exactly as
    written, including Python's reading of `$`, which also matches just
    before one final newline. */
module Syntax {
  import opened Wrappers
  import opened Text

  predicate IsLetter(c: char) {
    'a' <= c <= 'z' || 'A' <= c <= 'Z'
  }

  predicate IsDigit(c: char) {
    '0' <= c <= '9'
  }

  /** `[a-zA-Z0-9._%+-]` */
  predicate IsLocalChar(c: char) {
    IsLetter(c) || IsDigit(c) || c == '.' || c == '_' || c == '%' || c == '+' || c == '-'
  }

  /** `[a-zA-Z0-9.-]` */
  predicate IsDomainChar(c: char) {
    IsLetter(c) || IsDigit(c) || c == '.' || c == '-'
  }

  predicate IsAt(c: char) {
    c == '@'
  }

  /** Reference reading of the pattern body: some split `t[..a] @ t[a+1..k] . t[k+1..]`
      into a non-empty local part, a non-empty domain label run, and at
      least two letters, with each piece over its own character class. */
  ghost predicate PatternBody(t: string) {
    exists a, k :: PatternSplit(t, a, k)
  }

  /** `t[a]` is the `@` and `t[k]` the `.` of one way the pattern body matches `t`. */
  ghost predicate PatternSplit(t: string, a: int, k: int) {
    && 1 <= a && a + 2 <= k && k + 3 <= |t|
    && t[a] == '@' && t[k] == '.'
    && (forall i :: 0 <= i < a ==> IsLocalChar(t[i]))
    && (forall i :: a < i < k ==> IsDomainChar(t[i]))
    && (forall i :: k < i < |t| ==> IsLetter(t[i]))
  }

  /** The whole anchored match: `$` accepts the end of the string or the
      position just before a final `\n`. */
  ghost predicate MatchesPattern(s: string) {
    || PatternBody(s)
    || (|s| > 0 && s[|s| - 1] == '\n' && PatternBody(s[..|s| - 1]))
  }

  /** Index of the last `.` of `d`, if any. */
  function LastDot(d: string): (r: Option<nat>)
    ensures r.Some? ==> r.value < |d| && d[r.value] == '.'
    ensures r.Some? ==> forall j :: r.value < j < |d| ==> d[j] != '.'
    ensures r.None? ==> forall j :: 0 <= j < |d| ==> d[j] != '.'
  {
    if |d| == 0 then None
    else if d[|d| - 1] == '.' then Some(|d| - 1)
    else LastDot(d[..|d| - 1])
  }

  /** The check computed directly: cut at the first `@`; the local part is
      non-empty over the local class; the rest is over the domain class and
      its last `.` is not its first character and is followed by at least
      two letters only. */
  predicate BodyOk(t: string) {
    match FirstIndex(t, IsAt)
    case None => false
    case Some(a) =>
      var domain := t[a + 1..];
      && a >= 1
      && (forall i :: 0 <= i < a ==> IsLocalChar(t[i]))
      && (forall i :: 0 <= i < |domain| ==> IsDomainChar(domain[i]))
      && match LastDot(domain)
         case None => false
         case Some(j) =>
           && j >= 1
           && |domain| - j - 1 >= 2
           && (forall i :: j < i < |domain| ==> IsLetter(domain[i]))
  }

  predicate ValidSyntax(email: string) {
    || BodyOk(email)
    || (|email| > 0 && email[|email| - 1] == '\n' && BodyOk(email[..|email| - 1]))
  }

  lemma BodyOkToPattern(t: string)
    requires BodyOk(t)
    ensures PatternBody(t)
  {
    var a := FirstIndex(t, IsAt).value;
    var domain := t[a + 1..];
    var j := LastDot(domain).value;
    var k := a + 1 + j;
    assert t[k] == domain[j];
    forall i | a < i < k ensures IsDomainChar(t[i]) {
      assert t[i] == domain[i - a - 1];
    }
    forall i | k < i < |t| ensures IsLetter(t[i]) {
      assert t[i] == domain[i - a - 1];
    }
    assert PatternSplit(t, a, k);
  }

  lemma PatternToBodyOk(t: string, a: nat, k: nat)
    requires PatternSplit(t, a, k)
    ensures BodyOk(t)
  {
    assert forall j :: 0 <= j < a ==> !IsAt(t[j]);
    assert IsAt(t[a]);
    var f := FirstIndex(t, IsAt);
    assert f == Some(a);
    var domain := t[a + 1..];
    forall i | 0 <= i < |domain| ensures IsDomainChar(domain[i]) {
      assert domain[i] == t[a + 1 + i];
    }
    var jd := k - a - 1;
    assert domain[jd] == '.';
    forall i | jd < i < |domain| ensures IsLetter(domain[i]) {
      assert domain[i] == t[a + 1 + i];
    }
    assert LastDot(domain) == Some(jd);
  }

  lemma BodyOkIsPattern(t: string)
    ensures BodyOk(t) <==> PatternBody(t)
  {
    if BodyOk(t) {
      BodyOkToPattern(t);
    }
    if PatternBody(t) {
      var a, k :| PatternSplit(t, a, k);
      PatternToBodyOk(t, a, k);
    }
  }

  lemma ValidSyntaxIsPattern(email: string)
    ensures ValidSyntax(email) <==> MatchesPattern(email)
  {
    BodyOkIsPattern(email);
    if |email| > 0 {
      BodyOkIsPattern(email[..|email| - 1]);
    }
  }

  datatype SyntaxResult = SyntaxResult(valid: bool, points: int, reason: string)

  /** The syntax step of a verification: valid exactly when the pattern
      matches, and then worth 10 points, otherwise 0. */
  function CheckSyntax(email: string): (r: SyntaxResult)
    ensures r.valid <==> MatchesPattern(email)
    ensures r.valid ==> r.points == 10
    ensures !r.valid ==> r.points == 0
  {
    ValidSyntaxIsPattern(email);
    var v := ValidSyntax(email);
    SyntaxResult(v, if v then 10 else 0, if v then "Valid syntax" else "Invalid syntax")
  }

  /** A matching address has exactly one `@`. */
  lemma MatchHasOneAt(email: string)
    requires MatchesPattern(email)
    ensures exists a :: 0 <= a < |email| && email[a] == '@'
    ensures forall i, j :: 0 <= i < |email| && 0 <= j < |email| && email[i] == '@' && email[j] == '@' ==> i == j
  {
    var t := if PatternBody(email) then email else email[..|email| - 1];
    var a, k :| PatternSplit(t, a, k);
    assert email[a] == t[a];
    forall i | 0 <= i < |email| && email[i] == '@' ensures i == a {
      if i < |t| {
        assert email[i] == t[i];
      }
    }
  }

  /** Lowering keeps every character class the pattern uses. */
  lemma LowerKeepsSplit(t: string, a: int, k: int)
    requires PatternSplit(t, a, k)
    ensures PatternSplit(Lower(t), a, k)
  {
  }

  /** Any other non-empty local part over the local class can stand before
      the same `@domain`. */
  lemma ReplaceLocalKeepsSplit(t: string, a: int, k: int, local: string)
    requires PatternSplit(t, a, k)
    requires |local| >= 1 && forall i :: 0 <= i < |local| ==> IsLocalChar(local[i])
    ensures PatternSplit(local + t[a..], |local|, |local| + k - a)
  {
    var u := local + t[a..];
    forall i | |local| <= i < |u| ensures u[i] == t[a + i - |local|] {
    }
  }

  /** The lowered form of a matching address still has an `@`. */
  lemma LowerMatchHasAt(email: string)
    requires MatchesPattern(email)
    ensures exists a :: 0 <= a < |Lower(email)| && IsAt(Lower(email)[a])
  {
    MatchHasOneAt(email);
    var a :| 0 <= a < |email| && email[a] == '@';
    assert IsAt(Lower(email)[a]);
  }

  /** `email.lower().split('@', 1)` for an address that passed the check. */
  function SplitAddress(email: string): (r: (string, string))
    requires MatchesPattern(email)
    ensures r.0 + "@" + r.1 == Lower(email)
    ensures forall i :: 0 <= i < |r.0| ==> r.0[i] != '@'
  {
    var l := Lower(email);
    LowerMatchHasAt(email);
    match FirstIndex(l, IsAt)
    case Some(a) =>
      assert l == l[..a] + "@" + l[a + 1..];
      (l[..a], l[a + 1..])
    case None =>
      assert false;
      (l, "")
  }

  /** Where the `@` of a matching address sits after lowering. */
  lemma SplitAddressAt(email: string, t: string, a: int, k: int)
    requires MatchesPattern(email)
    requires t == email || (|email| > 0 && t == email[..|email| - 1] && email[|email| - 1] == '\n')
    requires PatternSplit(t, a, k)
    ensures SplitAddress(email).1 == Lower(email)[a + 1..]
  {
    var l := Lower(email);
    assert IsAt(l[a]);
    assert forall j :: 0 <= j < a ==> !IsAt(l[j]);
    assert FirstIndex(l, IsAt) == Some(a);
  }

  /** The catch-all probe address `<token>@<domain>`, built from the domain of
      an address that passed the check and a random `[a-z0-9]` token, passes
      the check too. */
  lemma ProbeAddressMatches(email: string, token: string)
    requires MatchesPattern(email)
    requires |token| >= 1
    requires forall i :: 0 <= i < |token| ==> 'a' <= token[i] <= 'z' || '0' <= token[i] <= '9'
    ensures MatchesPattern(token + "@" + SplitAddress(email).1)
  {
    if PatternBody(email) {
      var a, k :| PatternSplit(email, a, k);
      ProbeAddressFrom(email, email, "", a, k, token);
    } else {
      var t := email[..|email| - 1];
      var a, k :| PatternSplit(t, a, k);
      assert email == t + "\n";
      ProbeAddressFrom(email, t, "\n", a, k, token);
    }
  }

  lemma ProbeAddressFrom(email: string, t: string, nl: string, a: int, k: int, token: string)
    requires MatchesPattern(email)
    requires nl == "" || nl == "\n"
    requires email == t + nl
    requires t == email || (|email| > 0 && t == email[..|email| - 1] && email[|email| - 1] == '\n')
    requires PatternSplit(t, a, k)
    requires |token| >= 1
    requires forall i :: 0 <= i < |token| ==> 'a' <= token[i] <= 'z' || '0' <= token[i] <= '9'
    ensures MatchesPattern(token + "@" + SplitAddress(email).1)
  {
    assert forall i :: 0 <= i < |token| ==> IsLocalChar(token[i]);
    SplitAddressAt(email, t, a, k);
    LowerKeepsSplit(t, a, k);
    ReplaceLocalKeepsSplit(Lower(t), a, k, token);
    LowerAppend(t, nl);
    ProbeTail(Lower(t), a, token, nl);
  }

  lemma LowerAppend(x: string, y: string)
    ensures Lower(x + y) == Lower(x) + Lower(y)
  {
  }

  /** Re-assembling `<token>@<domain>` from a lowered body and its optional final newline. */
  lemma ProbeTail(lt: string, a: int, token: string, nl: string)
    requires 0 <= a < |lt| && lt[a] == '@'
    requires nl == "" || nl == "\n"
    requires PatternBody(token + lt[a..])
    ensures MatchesPattern(token + "@" + (lt + Lower(nl))[a + 1..])
  {
    assert Lower(nl) == nl;
    var u := token + lt[a..];
    assert lt[a..] == "@" + lt[a + 1..];
    assert (lt + nl)[a + 1..] == lt[a + 1..] + nl;
    assert token + "@" + (lt + nl)[a + 1..] == u + nl;
    if nl == "\n" {
      assert (u + nl)[..|u + nl| - 1] == u;
    } else {
      assert u + nl == u;
    }
  }
}
