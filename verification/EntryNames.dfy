/** The names under which the entries of an account are kept in the keyring. */
module EntryNames {
  import opened Common
  import opened StoreModel

  function Digit(d: nat): char
    requires d < 10
  {
    "0123456789"[d]
  }

  function Decimal(n: nat): string {
    if n < 10 then [Digit(n)] else Decimal(n / 10) + [Digit(n % 10)]
  }

  /** Everything the plugin keeps in the keyring. */
  datatype Secret = Streamlabs(id: string) | LiveCredentials(id: string) | FrameSigning(id: string)
      | Studio(entry: Entry)

  predicate Proper(s: Secret) {
    s.Studio? && s.entry.Cookie? ==> s.entry.index >= 0 && 0 <= s.entry.cookieSet <= 1
  }

  function Kind(s: Secret): string
    requires Proper(s)
  {
    match s
    case Streamlabs(_) => "Streamlabs"
    case LiveCredentials(_) => "LiveCredentials"
    case FrameSigning(_) => "FrameSigning"
    case Studio(Account(_)) => "TikTokStudioAccount"
    case Studio(Cookie(_, cookieSet, index)) =>
      (if cookieSet == 0 then "TikTokStudioCookie" else "TikTokStudioCookieB") + Decimal(index)
  }

  function Owner(s: Secret): string {
    if s.Studio? then s.entry.id else s.id
  }

  function Name(scope: string, s: Secret): string
    requires Proper(s)
  {
    "TikTokLiveObs/" + scope + "/" + (Kind(s) + ("/" + Owner(s)))
  }

  predicate IsDigit(c: char) {
    '0' <= c <= '9'
  }

  lemma {:induction false} DecimalDigits(n: nat)
    ensures Decimal(n) != "" && forall c :: c in Decimal(n) ==> IsDigit(c)
  {
    if n >= 10 {
      DecimalDigits(n / 10);
    }
  }

  lemma DecimalParts(n: nat)
    ensures Decimal(n) != "" && Decimal(n)[|Decimal(n)| - 1] == Digit(n % 10)
    ensures n >= 10 ==> Decimal(n)[..|Decimal(n)| - 1] == Decimal(n / 10) != ""
    ensures n < 10 ==> |Decimal(n)| == 1
  {
    DecimalDigits(n / 10);
  }

  lemma DigitInjective(d: nat, e: nat)
    requires d < 10 && e < 10 && Digit(d) == Digit(e)
    ensures d == e
  {
  }

  lemma {:induction false} DecimalInjective(n: nat, m: nat)
    requires Decimal(n) == Decimal(m)
    ensures n == m
  {
    DecimalParts(n);
    DecimalParts(m);
    DigitInjective(n % 10, m % 10);
    if n >= 10 && m >= 10 {
      DecimalInjective(n / 10, m / 10);
    }
  }

  lemma {:induction false} SplitAtSlash(a: string, b: string, x: string, y: string)
    requires '/' !in a && '/' !in b && a + ("/" + x) == b + ("/" + y)
    ensures a == b && x == y
  {
    var s, t := a + ("/" + x), b + ("/" + y);
    if a == "" || b == "" {
      assert s[0] == t[0];
      assert a == b;
      assert s[1..] == x && t[1..] == y;
    } else {
      assert s[1..] == a[1..] + ("/" + x) && t[1..] == b[1..] + ("/" + y);
      assert s[0] == a[0] && t[0] == b[0];
      SplitAtSlash(a[1..], b[1..], x, y);
      assert a == [a[0]] + a[1..] && b == [b[0]] + b[1..];
    }
  }

  lemma KindHasNoSlash(s: Secret)
    requires Proper(s)
    ensures '/' !in Kind(s)
  {
    if s.Studio? && s.entry.Cookie? {
      DecimalDigits(s.entry.index);
    }
  }

  /** Two secrets share a keyring name only if they are the same secret, whatever the ids contain. */
  lemma NamesAreDistinct(scope: string, s: Secret, t: Secret)
    requires Proper(s) && Proper(t) && Name(scope, s) == Name(scope, t)
    ensures s == t
  {
    var prefix := "TikTokLiveObs/" + scope + "/";
    assert Name(scope, s)[|prefix|..] == Kind(s) + ("/" + Owner(s));
    assert Name(scope, t)[|prefix|..] == Kind(t) + ("/" + Owner(t));
    KindHasNoSlash(s);
    KindHasNoSlash(t);
    SplitAtSlash(Kind(s), Kind(t), Owner(s), Owner(t));
    KindsAreDistinct(s, t);
  }

  lemma KindsAreDistinct(s: Secret, t: Secret)
    requires Proper(s) && Proper(t) && Kind(s) == Kind(t) && Owner(s) == Owner(t)
    ensures s == t
  {
    KindTells(s);
    KindTells(t);
    if s.Studio? && t.Studio? {
      EntryKindsAreDistinct(s.entry, t.entry);
    }
  }

  /** The first letter tells what is kept, and a thirteenth one whether it is a cookie. */
  lemma KindTells(s: Secret)
    requires Proper(s)
    ensures var k := Kind(s);
            && k != "" && (k[0] == 'S' <==> s.Streamlabs?) && (k[0] == 'L' <==> s.LiveCredentials?)
            && (k[0] == 'F' <==> s.FrameSigning?)
            && (s.Studio? ==> |k| > 12 && (k[12] == 'C' <==> s.entry.Cookie?))
  {
    assert "TikTokStudioCookie"[12] == 'C' && "TikTokStudioAccount"[12] == 'A';
    assert "TikTokStudioCookie"[0] == 'T' && "TikTokStudioAccount"[0] == 'T';
  }

  lemma EntryKindsAreDistinct(e: Entry, f: Entry)
    requires Proper(Studio(e)) && Proper(Studio(f)) && Kind(Studio(e)) == Kind(Studio(f)) && e.id == f.id
    requires e.Cookie? <==> f.Cookie?
    ensures e == f
  {
    if e.Cookie? {
      var a, b := Kind(Studio(e)), Kind(Studio(f));
      DecimalDigits(e.index);
      DecimalDigits(f.index);
      assert a[18] == b[18];
      assert e.cookieSet == 0 ==> a[18] == Decimal(e.index)[0];
      assert f.cookieSet == 0 ==> b[18] == Decimal(f.index)[0];
      assert e.cookieSet == 1 ==> a[18] == 'B';
      assert f.cookieSet == 1 ==> b[18] == 'B';
      assert IsDigit(Decimal(e.index)[0]) && IsDigit(Decimal(f.index)[0]) && !IsDigit('B');
      var skip := if e.cookieSet == 0 then 18 else 19;
      assert a[skip..] == Decimal(e.index) && b[skip..] == Decimal(f.index);
      DecimalInjective(e.index, f.index);
    }
  }
}
