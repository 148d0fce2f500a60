/** The public-suffix loop against the algorithm published at publicsuffix.org. */
module PublicSuffix {
  import opened Wrappers

  /** The labels of a host, leftmost first: what splitting at the dots gives, so never the empty sequence. */
  type Name = seq<string>

  datatype Rules = Rules(suffixes: set<Name>, wildcardParents: set<Name>, exceptions: set<Name>)

  /** Joined with dots, the labels are not the empty string. */
  predicate Named(name: Name) {
    name != [] && name != [""]
  }

  predicate WellFormed(rules: Rules) {
    forall name :: name in rules.suffixes + rules.wildcardParents + rules.exceptions ==> Named(name)
  }

  // --------------------------------------------------------------------- hosts

  predicate IsDigits(text: string) {
    forall i :: 0 <= i < |text| ==> '0' <= text[i] <= '9'
  }

  function Number(text: string): nat
    requires IsDigits(text)
  {
    if text == "" then 0 else Number(text[..|text| - 1]) * 10 + (text[|text| - 1] - '0') as nat
  }

  predicate IsOctet(text: string) {
    1 <= |text| <= 3 && IsDigits(text) && Number(text) <= 255
  }

  predicate IsIpAddress(name: Name) {
    || (|name| == 4 && forall i :: 0 <= i < |name| ==> IsOctet(name[i]))
    || (exists i :: 0 <= i < |name| && ':' in name[i])
  }

  // ------------------------------------------------------------------ the loop

  predicate ExceptionAt(rules: Rules, labels: Name, i: nat)
    requires i < |labels|
  {
    labels[i..] in rules.exceptions
  }

  predicate RuleAt(rules: Rules, labels: Name, i: nat)
    requires i < |labels|
  {
    labels[i..] in rules.suffixes || (Named(labels[i + 1..]) && labels[i + 1..] in rules.wildcardParents)
  }

  /** The loop from candidate `i` on. */
  function Scan(rules: Rules, labels: Name, i: nat): Option<Name>
    requires i <= |labels| && |labels| >= 2
    decreases |labels| - i
  {
    if i == |labels| then Some(labels[|labels| - 2..])
    else if ExceptionAt(rules, labels, i) then Some(labels[i..])
    else if RuleAt(rules, labels, i) then (if i == 0 then None else Some(labels[i - 1..]))
    else Scan(rules, labels, i + 1)
  }

  function Registrable(rules: Rules, labels: Name): Option<Name> {
    if !Named(labels) then None
    else if IsIpAddress(labels) then Some(labels)
    else if |labels| < 2 then None
    else Scan(rules, labels, 0)
  }

  method RegistrableDomain(rules: Rules, labels: Name) returns (r: Option<Name>)
    ensures r == Registrable(rules, labels)
  {
    if !Named(labels) {
      return None;
    }
    if IsIpAddress(labels) {
      return Some(labels);
    }
    if |labels| < 2 {
      return None;
    }
    for i := 0 to |labels|
      invariant Scan(rules, labels, 0) == Scan(rules, labels, i)
    {
      var candidate := labels[i..];
      if candidate in rules.exceptions {
        return Some(candidate);
      }
      if candidate in rules.suffixes {
        return if i == 0 then None else Some(labels[i - 1..]);
      }
      var parent := labels[i + 1..];
      if Named(parent) && parent in rules.wildcardParents {
        return if i == 0 then None else Some(labels[i - 1..]);
      }
    }
    r := Some(labels[|labels| - 2..]);
  }

  predicate IsPublicSuffix(rules: Rules, labels: Name) {
    && Named(labels)
    && labels !in rules.exceptions
    && (labels in rules.suffixes || |labels| == 1 || labels[1..] in rules.wildcardParents)
  }

  /** Where the loop stops, and what it answers there. */
  lemma {:induction false} ScanStops(rules: Rules, labels: Name, i: nat) returns (k: nat)
    requires i <= |labels| && |labels| >= 2
    ensures i <= k <= |labels|
    ensures forall j :: i <= j < k ==> !ExceptionAt(rules, labels, j) && !RuleAt(rules, labels, j)
    ensures k < |labels| ==> ExceptionAt(rules, labels, k) || RuleAt(rules, labels, k)
    ensures Scan(rules, labels, i) ==
            if k == |labels| then Some(labels[|labels| - 2..])
            else if ExceptionAt(rules, labels, k) then Some(labels[k..])
            else if k == 0 then None else Some(labels[k - 1..])
    decreases |labels| - i
  {
    k := i;
    if i < |labels| && !ExceptionAt(rules, labels, i) && !RuleAt(rules, labels, i) {
      k := ScanStops(rules, labels, i + 1);
    }
  }

  // ------------------------------------------------- the published algorithm

  datatype Rule = Plain(name: Name) | Wildcard(parent: Name) | Exception(name: Name)

  predicate InForce(rules: Rules, rule: Rule) {
    match rule
    case Plain(name) => name in rules.suffixes
    case Wildcard(parent) => parent in rules.wildcardParents
    case Exception(name) => name in rules.exceptions
  }

  function LabelCount(rule: Rule): nat {
    if rule.Wildcard? then |rule.parent| + 1 else |rule.name|
  }

  /** The host has at least the rule's labels, and they agree from the right; `*` agrees with anything. */
  predicate Matches(rule: Rule, labels: Name) {
    && LabelCount(rule) <= |labels|
    && match rule
       case Plain(name) => labels[|labels| - |name|..] == name
       case Wildcard(parent) => labels[|labels| - |parent|..] == parent
       case Exception(name) => labels[|labels| - |name|..] == name
  }

  /** An exception prevails over every other rule; among rules alike the one with most labels; without a match, `*`. */
  ghost predicate Prevails(rules: Rules, labels: Name, rule: Option<Rule>) {
    match rule
    case None => forall other :: !(InForce(rules, other) && Matches(other, labels))
    case Some(best) =>
      && InForce(rules, best) && Matches(best, labels)
      && (forall other :: InForce(rules, other) && Matches(other, labels) ==>
            if other.Exception? == best.Exception? then LabelCount(other) <= LabelCount(best) else best.Exception?)
  }

  /** How many labels of the host are public suffix; an exception loses its leftmost one. */
  function SuffixCount(rule: Option<Rule>): int {
    match rule
    case None => 1
    case Some(best) => if best.Exception? then LabelCount(best) - 1 else LabelCount(best)
  }

  /** The public suffix and one label more. */
  function OneLabelMore(labels: Name, count: int): Option<Name>
    requires count >= -1
  {
    if |labels| > count then Some(labels[|labels| - count - 1..]) else None
  }

  ghost predicate Published(rules: Rules, labels: Name, r: Option<Name>) {
    exists rule :: Prevails(rules, labels, rule) && r == OneLabelMore(labels, SuffixCount(rule))
  }

  /** Some rule is longer than every exception that matches: the loop meets it first. */
  predicate Shadowed(rules: Rules, labels: Name) {
    exists i :: 0 <= i < |labels| && RuleAt(rules, labels, i)
      && (forall j :: 0 <= j <= i ==> !ExceptionAt(rules, labels, j))
      && (exists j :: i < j < |labels| && ExceptionAt(rules, labels, j))
  }

  lemma MatchIsAt(rules: Rules, labels: Name, rule: Rule)
    requires WellFormed(rules) && InForce(rules, rule) && Matches(rule, labels)
    ensures 1 <= LabelCount(rule) <= |labels|
    ensures var i := |labels| - LabelCount(rule);
            if rule.Exception? then ExceptionAt(rules, labels, i) else RuleAt(rules, labels, i)
  {
    if rule.Wildcard? {
      assert |labels| - LabelCount(rule) + 1 == |labels| - |rule.parent|;
      assert Named(rule.parent);
    } else {
      assert Named(rule.name);
    }
  }

  lemma AtIsMatch(rules: Rules, labels: Name, i: nat) returns (rule: Rule)
    requires WellFormed(rules) && i < |labels| && (ExceptionAt(rules, labels, i) || RuleAt(rules, labels, i))
    ensures InForce(rules, rule) && Matches(rule, labels) && LabelCount(rule) == |labels| - i
    ensures rule.Exception? <==> ExceptionAt(rules, labels, i)
  {
    rule := if ExceptionAt(rules, labels, i) then Exception(labels[i..])
            else if labels[i..] in rules.suffixes then Plain(labels[i..])
            else Wildcard(labels[i + 1..]);
  }

  /** The longest exception that matches, if any does, prevails. */
  lemma {:induction false} LongestException(rules: Rules, labels: Name, i: nat) returns (k: nat)
    requires i < |labels| && ExceptionAt(rules, labels, i)
    ensures k <= i && ExceptionAt(rules, labels, k) && forall j :: 0 <= j < k ==> !ExceptionAt(rules, labels, j)
    decreases i
  {
    k := i;
    if j :| 0 <= j < i && ExceptionAt(rules, labels, j) {
      k := LongestException(rules, labels, j);
    }
  }

  /** Once an exception matches, the published answer is the longest one's own name. */
  lemma PublishedUnderException(rules: Rules, labels: Name, k: nat, r: Option<Name>)
    requires WellFormed(rules) && k < |labels| && ExceptionAt(rules, labels, k)
    requires forall j :: 0 <= j < k ==> !ExceptionAt(rules, labels, j)
    ensures Published(rules, labels, r) <==> r == Some(labels[k..])
  {
    var best := Exception(labels[k..]);
    forall other | InForce(rules, other) && Matches(other, labels)
      ensures other.Exception? ==> LabelCount(other) <= LabelCount(best)
    {
      MatchIsAt(rules, labels, other);
    }
    assert Prevails(rules, labels, Some(best));
    assert OneLabelMore(labels, SuffixCount(Some(best))) == Some(labels[k..]);
    forall rule | Prevails(rules, labels, rule) ensures SuffixCount(rule) == SuffixCount(Some(best)) {
      assert InForce(rules, best) && Matches(best, labels);
    }
  }

  /** With no exception among the matches, it is decided by the longest match, or by `*`. */
  lemma PublishedWithoutException(rules: Rules, labels: Name, k: nat)
    requires WellFormed(rules) && labels != [] && k <= |labels|
    requires forall j :: 0 <= j < |labels| ==> !ExceptionAt(rules, labels, j)
    requires forall j :: 0 <= j < k ==> !RuleAt(rules, labels, j)
    requires k < |labels| ==> RuleAt(rules, labels, k)
    ensures Published(rules, labels, OneLabelMore(labels, if k == |labels| then 1 else |labels| - k))
  {
    forall other | InForce(rules, other) && Matches(other, labels)
      ensures !other.Exception? && k < |labels| && LabelCount(other) <= |labels| - k
    {
      MatchIsAt(rules, labels, other);
    }
    if k == |labels| {
      assert Prevails(rules, labels, None);
    } else {
      var best := AtIsMatch(rules, labels, k);
      assert Prevails(rules, labels, Some(best));
    }
  }

  /**
   * The loop gives the published answer exactly when no rule longer than the
   * longest matching exception matches too, and a one-label host is not itself
   * an exception.
   */
  lemma LoopIsPublishedExactly(rules: Rules, labels: Name)
    requires WellFormed(rules) && Named(labels) && !IsIpAddress(labels)
    ensures Published(rules, labels, Registrable(rules, labels))
       <==> !Shadowed(rules, labels) && !(|labels| == 1 && labels in rules.exceptions)
  {
    if |labels| == 1 {
      OneLabelHost(rules, labels);
    } else {
      var k := ScanStops(rules, labels, 0);
      if i :| 0 <= i < |labels| && ExceptionAt(rules, labels, i) {
        var longest := LongestException(rules, labels, i);
        PublishedUnderException(rules, labels, longest, Registrable(rules, labels));
        assert k <= longest;
        if k < longest {
          assert Shadowed(rules, labels);
        }
      } else {
        PublishedWithoutException(rules, labels, k);
      }
    }
  }

  lemma OneLabelHost(rules: Rules, labels: Name)
    requires WellFormed(rules) && |labels| == 1
    ensures Published(rules, labels, None) <==> labels !in rules.exceptions
    ensures !Shadowed(rules, labels)
  {
    assert labels[0..] == labels;
    if labels in rules.exceptions {
      PublishedUnderException(rules, labels, 0, None);
    } else {
      PublishedWithoutException(rules, labels, if RuleAt(rules, labels, 0) then 0 else 1);
    }
  }

  const OVERLAPPING := Rules({["shop", "www", "ck"]}, {["ck"]}, {["www", "ck"]})

  /** The longer rule hides the exception here: the loop says null where the algorithm files the host under `www.ck`. */
  lemma LongerRuleHidesException()
    ensures Registrable(OVERLAPPING, ["shop", "www", "ck"]) == None
    ensures Published(OVERLAPPING, ["shop", "www", "ck"], Some(["www", "ck"]))
  {
    var labels: Name := ["shop", "www", "ck"];
    assert labels[0..] == labels && labels[1..] == ["www", "ck"];
    assert !IsIpAddress(labels);
    PublishedUnderException(OVERLAPPING, labels, 1, Some(["www", "ck"]));
  }

  /** No rule has an exception as a proper ending, and no exception is a single label. */
  predicate ExceptionsStandAlone(rules: Rules) {
    && (forall e :: e in rules.exceptions ==> |e| >= 2)
    && (forall e, name :: e in rules.exceptions && name in rules.suffixes && |e| < |name| ==> name[|name| - |e|..] != e)
    && (forall e, parent ::
          e in rules.exceptions && parent in rules.wildcardParents && |e| <= |parent| ==> parent[|parent| - |e|..] != e)
  }

  /** For such tables the loop is the published algorithm on every host name. */
  lemma LoopIsPublished(rules: Rules, labels: Name)
    requires WellFormed(rules) && ExceptionsStandAlone(rules) && Named(labels) && !IsIpAddress(labels)
    ensures Published(rules, labels, Registrable(rules, labels))
  {
    LoopIsPublishedExactly(rules, labels);
    forall i, j | 0 <= i < j < |labels| && ExceptionAt(rules, labels, j) ensures !RuleAt(rules, labels, i) {
      var e := labels[j..];
      assert labels[i..][|labels[i..]| - |e|..] == e;
      assert labels[i + 1..][|labels[i + 1..]| - |e|..] == e;
    }
  }

  // --------------------------------------------------------- what callers need

  /** The answer is an ending of the host, so the host lies in the domain it is filed under. */
  lemma ResultIsAnEnding(rules: Rules, labels: Name)
    requires Registrable(rules, labels).Some?
    ensures var r := Registrable(rules, labels).value;
            0 < |r| <= |labels| && labels[|labels| - |r|..] == r
  {
    if |labels| >= 2 {
      var k := ScanStops(rules, labels, 0);
    }
  }

  /** Null means a public suffix and nothing else, but for a one-label host that is an exception. */
  lemma NullIsPublicSuffixExactly(rules: Rules, labels: Name)
    requires WellFormed(rules) && Named(labels) && !IsIpAddress(labels)
    ensures (Registrable(rules, labels).None? <==> IsPublicSuffix(rules, labels))
       <==> !(|labels| == 1 && labels in rules.exceptions)
  {
    assert labels[0..] == labels;
    if |labels| >= 2 {
      var k := ScanStops(rules, labels, 0);
      assert RuleAt(rules, labels, 0) <==> labels in rules.suffixes || labels[1..] in rules.wildcardParents;
      assert !ExceptionAt(rules, labels, 0) && RuleAt(rules, labels, 0) ==> k == 0;
    }
  }

  lemma FixedPointBySize(rules: Rules, labels: Name)
    requires Registrable(rules, labels).Some?
    ensures var r := Registrable(rules, labels).value;
            Registrable(rules, r) == Some(r) <==> |r| >= 2 || IsIpAddress(r)
  {
    ResultIsAnEnding(rules, labels);
    var r := Registrable(rules, labels).value;
    if |r| >= 2 && !IsIpAddress(r) && !IsIpAddress(labels) {
      var k := ScanStops(rules, labels, 0);
      var d := |labels| - |r|;
      forall j | 0 <= j <= |r| ensures r[j..] == labels[d + j..] {
      }
      var k' := ScanStops(rules, r, 0);
      SameStop(rules, labels, r, d, k, k');
      assert r[0..] == r;
    }
  }

  lemma SameStop(rules: Rules, labels: Name, r: Name, d: nat, k: nat, k': nat)
    requires d < |labels| && r == labels[d..] && d <= k <= |labels| && k' <= |r|
    requires forall j :: 0 <= j < k ==> !ExceptionAt(rules, labels, j) && !RuleAt(rules, labels, j)
    requires k < |labels| ==> ExceptionAt(rules, labels, k) || RuleAt(rules, labels, k)
    requires forall j :: 0 <= j < k' ==> !ExceptionAt(rules, r, j) && !RuleAt(rules, r, j)
    requires k' < |r| ==> ExceptionAt(rules, r, k') || RuleAt(rules, r, k')
    ensures k == d + k'
    ensures k < |labels| ==> (ExceptionAt(rules, labels, k) <==> ExceptionAt(rules, r, k'))
  {
    forall i | d <= i < |labels|
      ensures ExceptionAt(rules, labels, i) <==> ExceptionAt(rules, r, i - d)
      ensures RuleAt(rules, labels, i) <==> RuleAt(rules, r, i - d)
    {
      assert r[i - d..] == labels[i..] && r[i - d + 1..] == labels[i + 1..];
    }
    forall j | 0 <= j < |r|
      ensures ExceptionAt(rules, r, j) <==> ExceptionAt(rules, labels, d + j)
      ensures RuleAt(rules, r, j) <==> RuleAt(rules, labels, d + j)
    {
      assert r[j..] == labels[d + j..] && r[j + 1..] == labels[d + j + 1..];
    }
  }

  /** Of all the host's endings the tables know only the last label, and know it as an exception. */
  predicate OnlyLastLabelExcepted(rules: Rules, labels: Name) {
    && |labels| >= 2
    && ExceptionAt(rules, labels, |labels| - 1)
    && forall i :: 0 <= i < |labels| - 1 ==> !ExceptionAt(rules, labels, i) && !RuleAt(rules, labels, i)
  }

  /**
   * The registrable domain is its own registrable domain, except exactly for the
   * hosts whose last label is an exception and of which no longer ending is known.
   */
  lemma FixedPointExactly(rules: Rules, labels: Name)
    requires Registrable(rules, labels).Some?
    ensures Registrable(rules, Registrable(rules, labels).value) == Registrable(rules, labels)
       <==> IsIpAddress(labels) || !OnlyLastLabelExcepted(rules, labels)
  {
    FixedPointBySize(rules, labels);
    if !IsIpAddress(labels) {
      var k := ScanStops(rules, labels, 0);
      var n := |labels| - 1;
      if |Registrable(rules, labels).value| == 1 {
        assert k == n;
        assert labels[n..] == [labels[n]];
      }
    }
  }

  /** A table whose exceptions have two labels or more makes it a fixed point for every host. */
  lemma FixedPoint(rules: Rules, labels: Name)
    requires forall e :: e in rules.exceptions ==> |e| >= 2
    requires Registrable(rules, labels).Some?
    ensures Registrable(rules, Registrable(rules, labels).value) == Registrable(rules, labels)
  {
    FixedPointExactly(rules, labels);
  }

  /** No credential is filed under a public suffix. */
  lemma ResultIsNoPublicSuffix(rules: Rules, labels: Name)
    requires WellFormed(rules) && Registrable(rules, labels).Some?
    requires !IsIpAddress(Registrable(rules, labels).value)
    ensures !IsPublicSuffix(rules, Registrable(rules, labels).value)
  {
    ResultIsAnEnding(rules, labels);
    FixedPointBySize(rules, labels);
    var r := Registrable(rules, labels).value;
    if |r| >= 2 {
      NullIsPublicSuffixExactly(rules, r);
    } else {
      var k := ScanStops(rules, labels, 0);
    }
  }

  // -------------------------------------------------- which hosts are addresses

  const DIGITS := "0123456789"

  /** A number as it is written. */
  function Decimal(n: nat): string {
    if n < 10 then [DIGITS[n]] else Decimal(n / 10) + [DIGITS[n % 10]]
  }

  lemma DigitAt(d: nat)
    requires d < 10
    ensures '0' <= DIGITS[d] <= '9' && DIGITS[d] - '0' == d as char
  {
  }

  lemma OneDigitMore(text: string, d: nat)
    requires IsDigits(text) && d < 10
    ensures IsDigits(text + [DIGITS[d]]) && Number(text + [DIGITS[d]]) == Number(text) * 10 + d
  {
    DigitAt(d);
    assert (text + [DIGITS[d]])[..|text|] == text;
  }

  lemma {:induction false} DecimalReads(n: nat)
    ensures IsDigits(Decimal(n)) && Number(Decimal(n)) == n
  {
    hide Number, IsDigits;
    if n < 10 {
      assert IsDigits("") && Number("") == 0 by { NoDigitsRead(); }
      OneDigitMore("", n);
      assert "" + [DIGITS[n]] == [DIGITS[n]];
    } else {
      DecimalReads(n / 10);
      OneDigitMore(Decimal(n / 10), n % 10);
    }
  }

  lemma NoDigitsRead()
    ensures IsDigits("") && Number("") == 0
  {
  }

  lemma {:induction false} DecimalIsShort(n: nat, places: nat)
    requires n < 1000 && (n < 10 ==> places == 1) && (10 <= n < 100 ==> places == 2) && (100 <= n ==> places == 3)
    ensures |Decimal(n)| == places
  {
    if n >= 10 {
      DecimalIsShort(n / 10, places - 1);
    }
  }

  lemma OctetExactly(n: nat)
    ensures IsOctet(Decimal(n)) <==> n < 256
    ensures ':' !in Decimal(n)
  {
    DecimalReads(n);
    if n < 256 {
      DecimalIsShort(n, if n < 10 then 1 else if n < 100 then 2 else 3);
    }
  }

  /** With leading zeros too, but not with a fourth digit. */
  lemma ThreeDigitsExactly(a: nat, b: nat, c: nat)
    requires a < 10 && b < 10 && c < 10
    ensures IsOctet([DIGITS[a], DIGITS[b], DIGITS[c]]) <==> 100 * a + 10 * b + c < 256
    ensures IsOctet([DIGITS[b], DIGITS[c]]) && IsOctet([DIGITS[c]])
  {
    hide Number, IsDigits;
    NoDigitsRead();
    OneDigitMore("", a);
    OneDigitMore("" + [DIGITS[a]], b);
    OneDigitMore("" + [DIGITS[a]] + [DIGITS[b]], c);
    OneDigitMore("", b);
    OneDigitMore("" + [DIGITS[b]], c);
    OneDigitMore("", c);
    assert "" + [DIGITS[a]] + [DIGITS[b]] + [DIGITS[c]] == [DIGITS[a], DIGITS[b], DIGITS[c]];
    assert "" + [DIGITS[b]] + [DIGITS[c]] == [DIGITS[b], DIGITS[c]];
    assert "" + [DIGITS[c]] == [DIGITS[c]];
  }

  lemma FourCharactersAreNoOctet(text: string)
    requires text == "" || |text| > 3
    ensures !IsOctet(text)
  {
  }

  function DottedQuad(a: nat, b: nat, c: nat, d: nat): Name {
    [Decimal(a), Decimal(b), Decimal(c), Decimal(d)]
  }

  /** Four numbers are an address exactly when each is below 256, and an address is its own registrable domain. */
  lemma QuadIsAddressExactly(rules: Rules, a: nat, b: nat, c: nat, d: nat)
    ensures IsIpAddress(DottedQuad(a, b, c, d)) <==> a < 256 && b < 256 && c < 256 && d < 256
    ensures a < 256 && b < 256 && c < 256 && d < 256 ==>
              Registrable(rules, DottedQuad(a, b, c, d)) == Some(DottedQuad(a, b, c, d))
  {
    OctetExactly(a);
    OctetExactly(b);
    OctetExactly(c);
    OctetExactly(d);
    var quad := DottedQuad(a, b, c, d);
    assert quad[0] == Decimal(a) && quad[1] == Decimal(b) && quad[2] == Decimal(c) && quad[3] == Decimal(d);
  }

  predicate HasColon(labels: Name) {
    exists i, k :: 0 <= i < |labels| && 0 <= k < |labels[i]| && labels[i][k] == ':'
  }

  /** An address of version 6 is its own registrable domain. */
  lemma ColonIsAddress(rules: Rules, labels: Name)
    requires HasColon(labels)
    ensures IsIpAddress(labels)
    ensures Registrable(rules, labels) == Some(labels)
  {
    var i, k :| 0 <= i < |labels| && 0 <= k < |labels[i]| && labels[i][k] == ':';
    assert ':' in labels[i];
  }

  predicate HasLetter(labels: Name) {
    exists i, k :: 0 <= i < |labels| && 0 <= k < |labels[i]| && labels[i][k] !in DIGITS
  }

  /** A host without a colon that has a character other than a digit, or not four labels. */
  predicate IsHostName(labels: Name) {
    Named(labels) && !HasColon(labels) && (|labels| != 4 || HasLetter(labels))
  }

  lemma DigitIsListed(c: char)
    ensures '0' <= c <= '9' ==> c in DIGITS
  {
    if '0' <= c <= '9' {
      var d := (c - '0') as int;
      DigitAt(d);
      assert DIGITS[d] == c;
    }
  }

  lemma HostNameIsNoAddress(labels: Name)
    requires IsHostName(labels)
    ensures !IsIpAddress(labels)
  {
    if HasLetter(labels) {
      var i, k :| 0 <= i < |labels| && 0 <= k < |labels[i]| && labels[i][k] !in DIGITS;
      DigitIsListed(labels[i][k]);
    }
  }

  /** What the laws above say of hosts that are no addresses, they say of every host name. */
  lemma NamesAreLooped(rules: Rules, labels: Name)
    requires WellFormed(rules) && IsHostName(labels)
    ensures Published(rules, labels, Registrable(rules, labels))
       <==> !Shadowed(rules, labels) && !(|labels| == 1 && labels in rules.exceptions)
    ensures ExceptionsStandAlone(rules) ==> Published(rules, labels, Registrable(rules, labels))
  {
    HostNameIsNoAddress(labels);
    LoopIsPublishedExactly(rules, labels);
    if ExceptionsStandAlone(rules) { LoopIsPublished(rules, labels); }
  }
}
