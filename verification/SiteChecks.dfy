/** The checks of one camouflage site's own names and numbers, and which names a certificate covers. */
module SiteChecks {

  /** An address as text, and whether it parses as an IP address. */
  datatype PublicIp = PublicIp(text: string, isAddress: bool)

  datatype Certificate = Certificate(domain: string, expectedPublicIp: PublicIp, renewBeforeDays: nat)

  const TLS_PORT := 8443

  predicate IsDigit(c: char) {
    '0' <= c <= '9'
  }

  predicate IsLower(c: char) {
    'a' <= c <= 'z'
  }

  predicate IsUpper(c: char) {
    'A' <= c <= 'Z'
  }

  predicate SiteIdOk(id: string) {
    0 < |id| <= 64 && forall i | 0 <= i < |id| :: IsLower(id[i]) || IsUpper(id[i]) || IsDigit(id[i]) || id[i] == '-' || id[i] == '_'
  }

  /** The position of the first dot, or the length if there is none. */
  function FirstDot(s: string): (i: nat)
    ensures i <= |s| && '.' !in s[..i]
    ensures i < |s| ==> s[i] == '.'
  {
    if s == "" || s[0] == '.' then 0
    else
      assert s == [s[0]] + s[1..];
      1 + FirstDot(s[1..])
  }

  /** The parts between the dots. */
  function Labels(s: string): seq<string>
    decreases |s|
  {
    var i := FirstDot(s);
    if i == |s| then [s] else [s[..i]] + Labels(s[i + 1..])
  }

  predicate LabelOk(part: string) {
    && 0 < |part| <= 63 && part[0] != '-' && part[|part| - 1] != '-'
    && forall i | 0 <= i < |part| :: IsLower(part[i]) || IsDigit(part[i]) || part[i] == '-'
  }

  predicate ValidDomain(s: string) {
    |s| <= 253 && |Labels(s)| >= 2 && forall l | l in Labels(s) :: LabelOk(l)
  }

  function TrimDots(s: string): string {
    if s != "" && s[|s| - 1] == '.' then TrimDots(s[..|s| - 1]) else s
  }

  function Lower(s: string): (r: string)
    ensures |r| == |s|
  {
    seq(|s|, i requires 0 <= i < |s| => if IsUpper(s[i]) then s[i] - 'A' + 'a' else s[i])
  }

  function Normal(name: string): string {
    Lower(TrimDots(name))
  }

  predicate EndsWith(s: string, suffix: string) {
    |suffix| <= |s| && s[|s| - |suffix|..] == suffix
  }

  /** A certificate covers its own name, and as a wildcard one more label in front of its base. */
  predicate Covers(domain: string, sni: string) {
    var d, n := Normal(domain), Normal(sni);
    || d == n
    || (|d| >= 2 && d[0] == '*' && d[1] == '.' && EndsWith(n, d[1..]) &&
        var front := n[..|n| - |d[1..]|]; front != "" && '.' !in front)
  }

  predicate WellFormed(siteId: string, sni: string, tlsPort: nat, c: Certificate) {
    && SiteIdOk(siteId) && ValidDomain(sni) && tlsPort == TLS_PORT && Covers(c.domain, sni)
    && c.expectedPublicIp.isAddress && 1 <= c.renewBeforeDays <= 365
  }

  // ---------------------------------------------------------------------------------------------------------

  lemma {:induction false} FirstDotIs(s: string, i: nat)
    requires i < |s| && s[i] == '.' && '.' !in s[..i]
    ensures FirstDot(s) == i
    decreases i
  {
    if i > 0 {
      assert s[..i][0] == s[0] && s[1..][..i - 1] == s[..i][1..];
      FirstDotIs(s[1..], i - 1);
    }
  }

  predicate NoUpper(s: string) {
    forall i | 0 <= i < |s| :: !IsUpper(s[i])
  }

  lemma JoinedNoUpper(a: string, b: string)
    requires NoUpper(a) && NoUpper(b)
    ensures NoUpper(a + ['.'] + b)
  {
  }

  lemma CutAtDot(s: string, i: nat)
    requires i < |s| && s[i] == '.'
    ensures s == s[..i] + ['.'] + s[i + 1..]
  {
  }

  /** The first label and what the labels of the rest are. */
  lemma {:induction false} FirstLabel(s: string)
    ensures var i := FirstDot(s);
            if i == |s| then Labels(s) == [s] else Labels(s)[0] == s[..i] && Labels(s)[1..] == Labels(s[i + 1..])
  {
    var i := FirstDot(s);
    if i < |s| {
      assert Labels(s) == [s[..i]] + Labels(s[i + 1..]);
    }
  }

  /** A name of well-formed labels has no upper-case letter and does not end in a dot. */
  lemma {:induction false} DomainCharacters(s: string)
    requires forall k | 0 <= k < |Labels(s)| :: LabelOk(Labels(s)[k])
    ensures s != "" && s[|s| - 1] != '.' && NoUpper(s)
    decreases |s|
  {
    var i := FirstDot(s);
    FirstLabel(s);
    if i < |s| {
      var rest := s[i + 1..];
      forall k | 0 <= k < |Labels(rest)| ensures LabelOk(Labels(rest)[k]) {
        assert Labels(rest)[k] == Labels(s)[k + 1];
      }
      DomainCharacters(rest);
      assert LabelOk(Labels(s)[0]);
      JoinedNoUpper(s[..i], rest);
      CutAtDot(s, i);
    } else {
      assert LabelOk(Labels(s)[0]);
    }
  }

  /** An accepted server name is in normal form already: lower case and without a trailing dot. */
  lemma ValidDomainIsNormal(s: string)
    requires ValidDomain(s)
    ensures Normal(s) == s
  {
    DomainCharacters(s);
  }

  /** An accepted server name has a first label and something after it. */
  lemma ValidDomainHasParent(s: string)
    requires ValidDomain(s)
    ensures 0 < FirstDot(s) < |s|
  {
    assert s[..FirstDot(s)] in Labels(s);
  }

  /**
   For an accepted server name, a certificate covers it exactly if its normalized domain is that name, or the wildcard
   of that name's direct parent: never of a grandparent, and never of the name itself.
   */
  lemma CoversIff(domain: string, sni: string)
    requires ValidDomain(sni)
    ensures Covers(domain, sni) <==> Normal(domain) == sni || Normal(domain) == ['*'] + sni[FirstDot(sni)..]
  {
    var d, i := Normal(domain), FirstDot(sni);
    ValidDomainIsNormal(sni);
    ValidDomainHasParent(sni);
    if Covers(domain, sni) && d != sni {
      var k := |sni| - |d[1..]|;
      assert sni[k..][0] == d[1..][0];
      FirstDotIs(sni, k);
      assert d == ['*'] + d[1..];
    }
    if d == ['*'] + sni[i..] {
      assert d[1..] == sni[i..] && d[1] == '.';
      assert sni[..|sni| - |d[1..]|] == sni[..i];
    }
  }

  // ---------------------------------------------------------------------------------------------------------
  // What the checks accept, spelled out.

  const DIGITS := "0123456789"
  const SMALL := "abcdefghijklmnopqrstuvwxyz"
  const CAPITALS := "ABCDEFGHIJKLMNOPQRSTUVWXYZ"

  lemma DigitIff(c: char)
    ensures IsDigit(c) <==> c in DIGITS
  {
  }

  lemma LowerIff(c: char)
    ensures IsLower(c) <==> c in SMALL
  {
  }

  lemma UpperIff(c: char)
    ensures IsUpper(c) <==> c in CAPITALS
  {
  }

  /** A site id is accepted exactly if it has 1 to 64 letters, digits, hyphens and underscores. */
  lemma SiteIdIff(id: string)
    ensures SiteIdOk(id) <==>
            id != "" && |id| < 65 && forall c | c in id :: c in SMALL || c in CAPITALS || c in DIGITS || c in ['-', '_']
  {
    forall c | c in id ensures IsLower(c) <==> c in SMALL {
      LowerIff(c);
    }
    forall c | c in id ensures IsUpper(c) <==> c in CAPITALS {
      UpperIff(c);
    }
    forall c | c in id ensures IsDigit(c) <==> c in DIGITS {
      DigitIff(c);
    }
  }

  lemma LabelIff(part: string)
    ensures LabelOk(part) <==>
            && part != "" && |part| < 64 && !('-' == part[0] || '-' == part[|part| - 1])
            && forall c | c in part :: c in SMALL || c in DIGITS || c in ['-']
  {
    forall c | c in part ensures IsLower(c) <==> c in SMALL {
      LowerIff(c);
    }
    forall c | c in part ensures IsDigit(c) <==> c in DIGITS {
      DigitIff(c);
    }
  }

  function Join(parts: seq<string>): string
    requires parts != []
  {
    if |parts| == 1 then parts[0] else parts[0] + ['.'] + Join(parts[1..])
  }

  /** The labels are what stands between the dots: joined by dots they are the name again, and none contains a dot. */
  lemma {:induction false} LabelsRejoin(s: string)
    ensures Labels(s) != [] && Join(Labels(s)) == s && (|Labels(s)| > 1 <==> '.' in s)
    ensures forall k | 0 <= k < |Labels(s)| :: '.' !in Labels(s)[k]
    decreases |s|
  {
    var i := FirstDot(s);
    FirstLabel(s);
    if i < |s| {
      LabelsRejoin(s[i + 1..]);
      CutAtDot(s, i);
      forall k | 0 <= k < |Labels(s)| ensures '.' !in Labels(s)[k] {
        assert k > 0 ==> Labels(s)[k] == Labels(s[i + 1..])[k - 1];
      }
    } else {
      assert s[..i] == s;
    }
  }

  /** A domain is accepted exactly if it has at most 253 characters and a dot, and each label is well formed. */
  lemma DomainIff(s: string)
    ensures ValidDomain(s) <==> |s| < 254 && '.' in s && forall k | 0 <= k < |Labels(s)| :: LabelOk(Labels(s)[k])
  {
    LabelsRejoin(s);
  }

  /** What is refused of a site with a valid server name, one check after the other. */
  lemma SiteRefusedIff(siteId: string, sni: string, tlsPort: nat, c: Certificate)
    ensures !ValidDomain(sni) ==> !WellFormed(siteId, sni, tlsPort, c)
    ensures ValidDomain(sni) ==>
              (!WellFormed(siteId, sni, tlsPort, c) <==>
                 || !SiteIdOk(siteId) || tlsPort != 8443
                 || !(Normal(c.domain) == sni || Normal(c.domain) == ['*'] + sni[FirstDot(sni)..])
                 || !c.expectedPublicIp.isAddress || c.renewBeforeDays == 0 || c.renewBeforeDays > 365)
  {
    if ValidDomain(sni) {
      CoversIff(c.domain, sni);
    }
  }
}
