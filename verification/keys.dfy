/** Cache keys and the composite `refId` (src/applications.ts). Numbers are
    rendered in decimal, as a JavaScript template literal renders a
    non-negative integer. */
module Keys {
  import opened Records

  predicate IsDigit(c: char) {
    '0' <= c <= '9'
  }

  function DigitChar(d: nat): (c: char)
    requires d < 10
    ensures IsDigit(c)
  {
    (48 + d) as char
  }

  /** Decimal rendering of a natural number. */
  function Decimal(n: nat): (s: string)
    ensures |s| >= 1
    ensures |s| == 1 <==> n < 10
    ensures forall i :: 0 <= i < |s| ==> IsDigit(s[i])
  {
    if n < 10 then [DigitChar(n)] else Decimal(n / 10) + [DigitChar(n % 10)]
  }

  /** Different numbers render differently. */
  lemma {:induction false} DecimalInjective(m: nat, n: nat)
    requires Decimal(m) == Decimal(n)
    ensures m == n
  {
    if m >= 10 && n >= 10 {
      var sm, sn := Decimal(m), Decimal(n);
      assert sm[|sm| - 1] == DigitChar(m % 10) && sn[|sn| - 1] == DigitChar(n % 10);
      assert Decimal(m / 10) == sm[..|sm| - 1] == sn[..|sn| - 1] == Decimal(n / 10);
      DecimalInjective(m / 10, n / 10);
    }
  }

  /** `applications:{chainId}:{roundId}`: where a round's raw list is cached. */
  function ListKey(ref: RoundRef): (k: string)
    ensures IsListKey(k)
  {
    "applications:" + Decimal(ref.chainId) + ":" + Decimal(ref.roundId)
  }

  /** `{chainId}:{roundId}:{id}`: the composite id stamped on an enriched
      application. */
  function RefId(app: Application): string {
    Decimal(app.chainId) + ":" + app.roundId + ":" + app.id
  }

  /** `application:{chainId}:{roundId}:{id}:features`: where an
      application's classification result is cached. */
  function FeatureKey(app: Application): (k: string)
    ensures !IsListKey(k)
  {
    var k := "application:" + Decimal(app.chainId) + ":" + app.roundId + ":" + app.id + ":features";
    assert k[11] == ':';
    k
  }

  /** Keys in the `applications` family (raw round lists); no feature key
      is in it. */
  predicate IsListKey(k: string) {
    |k| >= 12 && k[..12] == "applications"
  }

  /** Splitting at the first colon: two strings `a:b` and `c:d` whose heads
      contain no colon have equal heads and equal tails. */
  lemma {:induction false} SplitAtColon(a: string, b: string, c: string, d: string)
    requires a + ":" + b == c + ":" + d
    requires forall i :: 0 <= i < |a| ==> a[i] != ':'
    requires forall i :: 0 <= i < |c| ==> c[i] != ':'
    ensures a == c && b == d
  {
    var s := a + ":" + b;
    if |a| < |c| {
      ColonAt(a, b);
      assert false;
    } else if |c| < |a| {
      ColonAt(c, d);
      assert false;
    } else {
      assert a == s[..|a|] == c;
      assert b == s[|a| + 1..] == d;
    }
  }

  lemma ColonAt(a: string, b: string)
    ensures (a + ":" + b)[|a|] == ':'
  {
  }

  /** Distinct round references read and write distinct list keys. */
  lemma ListKeyInjective(r1: RoundRef, r2: RoundRef)
    requires ListKey(r1) == ListKey(r2)
    ensures r1 == r2
  {
    var p := "applications:";
    var t1 := Decimal(r1.chainId) + ":" + Decimal(r1.roundId);
    var t2 := Decimal(r2.chainId) + ":" + Decimal(r2.roundId);
    assert ListKey(r1) == p + t1 && ListKey(r2) == p + t2;
    assert t1 == (p + t1)[|p|..] == (p + t2)[|p|..] == t2;
    SplitAtColon(Decimal(r1.chainId), Decimal(r1.roundId), Decimal(r2.chainId), Decimal(r2.roundId));
    DecimalInjective(r1.chainId, r2.chainId);
    DecimalInjective(r1.roundId, r2.roundId);
  }

  /** The features key of an application is its `refId`, framed. */
  lemma FeatureKeyFramesRefId(app: Application)
    ensures FeatureKey(app) == "application:" + RefId(app) + ":features"
    ensures FeatureKey(app)[12..|FeatureKey(app)| - 9] == RefId(app)
  {
  }
}
