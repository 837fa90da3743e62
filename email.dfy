/** The email syntax check of `IsValidEmail` (internal/user-pack/validation.go:8-11)
    and of main.go's `isValidEmail`, which compiles the same pattern
    `^[a-zA-Z0-9._%+-]+@[a-zA-Z0-9.-]+\.[a-zA-Z]{2,}$`.

    The pattern is anchored at both ends (in Go's syntax `$` matches only at
    the end of the text), so it accepts exactly the strings L '@' D '.' T with
    L a non-empty run of local-part characters, D a non-empty run of domain
    characters and T at least two ASCII letters. `IsValidEmail` states that
    language directly; `ScanEmail` is a hand-written scanner that splits at the
    '@' and at the last '.', proved to decide the same language. */
module Email {

  predicate IsLetter(c: char) {
    'a' <= c <= 'z' || 'A' <= c <= 'Z'
  }

  predicate IsDigit(c: char) {
    '0' <= c <= '9'
  }

  /** The class `[a-zA-Z0-9._%+-]`. */
  predicate IsLocalChar(c: char) {
    IsLetter(c) || IsDigit(c) || c == '.' || c == '_' || c == '%' || c == '+' || c == '-'
  }

  /** The class `[a-zA-Z0-9.-]`. */
  predicate IsDomainChar(c: char) {
    IsLetter(c) || IsDigit(c) || c == '.' || c == '-'
  }

  /** The three character classes of the pattern; the last one, `[a-zA-Z]`, is
      the class of the top-level domain. */
  datatype CharClass = Local | Domain | Tld

  predicate InClass(c: char, k: CharClass) {
    match k
    case Local => IsLocalChar(c)
    case Domain => IsDomainChar(c)
    case Tld => IsLetter(c)
  }

  /** Every character of `s[lo..hi]` belongs to class `k`. */
  predicate AllIn(s: string, lo: int, hi: int, k: CharClass)
    requires 0 <= lo <= hi <= |s|
  {
    forall i | lo <= i < hi :: InClass(s[i], k)
  }

  /** `s` is L '@' D '.' T with the '@' at index `at` and the separating '.' at
      index `dot`: L = s[..at] non-empty, D = s[at+1..dot] non-empty, and
      T = s[dot+1..] at least two letters long. */
  predicate IsSplit(s: string, at: int, dot: int) {
    && 0 < at && at + 1 < dot && dot + 3 <= |s|
    && s[at] == '@' && s[dot] == '.'
    && AllIn(s, 0, at, Local)
    && AllIn(s, at + 1, dot, Domain)
    && AllIn(s, dot + 1, |s|, Tld)
  }

  /** The language of the pattern: some split of `s` fits it. */
  predicate IsValidEmail(s: string) {
    exists at, dot | 0 <= at < |s| && 0 <= dot < |s| :: IsSplit(s, at, dot)
  }

  /** No character of any class is an '@'. */
  lemma NoClassHoldsAt(k: CharClass)
    ensures !InClass('@', k)
  {
  }

  /** An accepted address is exactly L '@' D '.' T, read off its split. */
  lemma {:induction false} SplitShape(s: string, at: int, dot: int)
    requires IsSplit(s, at, dot)
    ensures s == s[..at] + "@" + s[at + 1..dot] + "." + s[dot + 1..]
    ensures |s[..at]| > 0 && |s[at + 1..dot]| > 0 && |s[dot + 1..]| >= 2
  {
    assert s == s[..at] + [s[at]] + s[at + 1..dot] + [s[dot]] + s[dot + 1..];
  }

  /** Conversely, gluing a local part, an '@', a domain, a '.' and a top-level
      domain that fit their classes gives an accepted address. */
  lemma {:induction false} ComposeAccepted(local: string, domain: string, tld: string)
    requires |local| > 0 && |domain| > 0 && |tld| >= 2
    requires forall i | 0 <= i < |local| :: IsLocalChar(local[i])
    requires forall i | 0 <= i < |domain| :: IsDomainChar(domain[i])
    requires forall i | 0 <= i < |tld| :: IsLetter(tld[i])
    ensures IsValidEmail(local + "@" + domain + "." + tld)
  {
    var s := local + "@" + domain + "." + tld;
    var at, dot := |local|, |local| + 1 + |domain|;
    assert forall i | 0 <= i < at :: s[i] == local[i];
    assert forall i | at + 1 <= i < dot :: s[i] == domain[i - at - 1];
    assert forall i | dot + 1 <= i < |s| :: s[i] == tld[i - dot - 1];
    assert IsSplit(s, at, dot);
  }

  /** The '@' of a split is the only '@' in the string: none of the three
      character classes contains it. */
  lemma {:induction false} AtIsOnly(s: string, at: int, dot: int, i: int)
    requires IsSplit(s, at, dot)
    requires 0 <= i < |s| && s[i] == '@'
    ensures i == at
  {
    var c := s[i];
    assert i < at ==> InClass(c, Local);
    assert at < i < dot ==> InClass(c, Domain);
    assert dot < i ==> InClass(c, Tld);
  }

  /** The separating '.' of a split is the last '.' in the string: the
      top-level domain holds letters only. */
  lemma {:induction false} DotIsLast(s: string, at: int, dot: int, i: int)
    requires IsSplit(s, at, dot)
    requires dot < i < |s|
    ensures s[i] != '.'
  {
    assert InClass(s[i], Tld);
  }

  /** An accepted address has one split only. */
  lemma {:induction false} SplitIsUnique(s: string, at: int, dot: int, at': int, dot': int)
    requires IsSplit(s, at, dot) && IsSplit(s, at', dot')
    ensures at == at' && dot == dot'
  {
    AtIsOnly(s, at, dot, at');
    if dot < dot' {
      DotIsLast(s, at, dot, dot');
    } else if dot' < dot {
      DotIsLast(s, at', dot', dot);
    }
  }

  /** Every accepted address contains exactly one '@'. */
  lemma {:induction false} AcceptedHasOneAt(s: string)
    requires IsValidEmail(s)
    ensures multiset(s)['@'] == 1
  {
    var at, dot :| 0 <= at < |s| && 0 <= dot < |s| && IsSplit(s, at, dot);
    assert s == s[..at] + [s[at]] + s[at + 1..];
    forall i | 0 <= i < |s| && i != at
      ensures s[i] != '@'
    {
      if s[i] == '@' {
        AtIsOnly(s, at, dot, i);
      }
    }
    assert '@' !in s[..at];
    assert '@' !in s[at + 1..];
  }

  /** The example address of the handler tests is accepted. */
  lemma AcceptsTestAddress()
    ensures IsValidEmail("john.doe@example.com")
  {
    assert IsSplit("john.doe@example.com", 8, 16);
  }

  /** The malformed address of the handler tests is rejected: it has no '@'. */
  lemma RejectsTestAddress()
    ensures !IsValidEmail("invalid-email")
  {
    var s := "invalid-email";
    assert '@' !in s;
  }

  /** Decides whether every character of `s[lo..hi]` belongs to class `k`. */
  method ScanClass(s: string, lo: int, hi: int, k: CharClass) returns (ok: bool)
    requires 0 <= lo <= hi <= |s|
    ensures ok == AllIn(s, lo, hi, k)
  {
    var i := lo;
    while i < hi && InClass(s[i], k)
      invariant lo <= i <= hi
      invariant AllIn(s, lo, i, k)
    {
      i := i + 1;
    }
    ok := i == hi;
  }

  /** The local-part scan stops exactly at the '@' of any split. */
  lemma {:induction false} LocalScanStopsAtAt(s: string, i: int, at: int, dot: int)
    requires 0 <= i <= |s| && AllIn(s, 0, i, Local)
    requires i == |s| || !IsLocalChar(s[i])
    requires IsSplit(s, at, dot)
    ensures i == at
  {
    var c := if i < |s| then s[i] else '@';
    var a := s[at];
    assert i < at ==> InClass(c, Local);
    assert at < i ==> InClass(a, Local);
    NoClassHoldsAt(Local);
  }

  /** The backward search for the last '.' after the '@' stops exactly at the
      separator of any split. */
  lemma {:induction false} DotScanStopsAtSeparator(s: string, at: int, d: int, dot: int)
    requires IsSplit(s, at, dot)
    requires at <= d < |s|
    requires d == at || s[d] == '.'
    requires forall k | d < k < |s| :: s[k] != '.'
    ensures d == dot
  {
    var c := s[d];
    assert s[dot] == '.';
    assert dot < d ==> InClass(c, Tld);
  }

  /** When the local-part scan does not stop at an '@' after at least one
      character, no split exists. */
  lemma {:induction false} EarlyStopRejects(s: string, i: int)
    requires 0 <= i <= |s| && AllIn(s, 0, i, Local)
    requires i == |s| || !IsLocalChar(s[i])
    requires i == 0 || i == |s| || s[i] != '@'
    ensures !IsValidEmail(s)
  {
    if IsValidEmail(s) {
      var at, dot :| 0 <= at < |s| && 0 <= dot < |s| && IsSplit(s, at, dot);
      LocalScanStopsAtAt(s, i, at, dot);
      assert false;
    }
  }

  /** Once the scan has found the first '@' and the last '.' after it, any
      split of the string is exactly that pair. */
  lemma {:induction false} SeparatorsAreFound(s: string, at: int, d: int)
    requires 0 < at < |s| && s[at] == '@' && AllIn(s, 0, at, Local)
    requires at <= d < |s| && (d == at || s[d] == '.')
    requires forall k | d < k < |s| :: s[k] != '.'
    ensures IsValidEmail(s) ==> IsSplit(s, at, d)
  {
    if IsValidEmail(s) {
      var at', dot :| 0 <= at' < |s| && 0 <= dot < |s| && IsSplit(s, at', dot);
      LocalScanStopsAtAt(s, at, at', dot);
      DotScanStopsAtSeparator(s, at, d, dot);
    }
  }

  /** A hand-written recognizer: read the local part up to the '@', search
      backwards for the last '.', then check the domain and the top-level
      domain. It decides exactly the pattern's language. */
  method ScanEmail(s: string) returns (ok: bool)
    ensures ok == IsValidEmail(s)
  {
    var i := 0;
    while i < |s| && IsLocalChar(s[i])
      invariant 0 <= i <= |s|
      invariant AllIn(s, 0, i, Local)
    {
      i := i + 1;
    }
    if i == 0 || i == |s| || s[i] != '@' {
      EarlyStopRejects(s, i);
      return false;
    }
    var at := i;
    var d := |s| - 1;
    while d > at && s[d] != '.'
      invariant at <= d < |s|
      invariant forall k | d < k < |s| :: s[k] != '.'
    {
      d := d - 1;
    }
    if d <= at + 1 || d + 3 > |s| {
      ok := false;
    } else {
      ok := ScanClass(s, at + 1, d, Domain);
      if ok {
        ok := ScanClass(s, d + 1, |s|, Tld);
      }
      if ok {
        assert IsSplit(s, at, d);
      }
    }
    SeparatorsAreFound(s, at, d);
  }
}
