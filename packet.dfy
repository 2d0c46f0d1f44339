/** The hierarchical name matcher of `src/packet/packet.go`: `SplitHost`
    and `HostMatches`. A pattern is a dotted name whose labels are compared
    with the candidate's one by one; a `*` label matches any single label, and
    a pattern string that starts (or ends) with `**` has its first (or last)
    label replaced by enough `*` labels to line it up with the candidate. */
module Packet {
  import opened GoStrings

  /** SplitHost: drop trailing dots, then split on ".". There is always at
      least one label. */
  function SplitHost(host: string): (r: seq<string>)
    ensures |r| >= 1
  {
    Split(TrimRight(host, '.'), '.')
  }

  /** A pattern label accepts a candidate label when they are equal or the
      pattern label is `*`. */
  predicate LabelMatches(name: string, pat: string)
  {
    name == pat || pat == "*"
  }

  /** Two label lists of the same length that agree label by label. */
  predicate LabelsMatch(labels: seq<string>, pats: seq<string>)
  {
    |labels| == |pats| && forall i :: 0 <= i < |labels| ==> LabelMatches(labels[i], pats[i])
  }

  /** `n` wildcard labels. */
  function Stars(n: nat): (r: seq<string>)
    ensures |r| == n && forall i :: 0 <= i < n ==> r[i] == "*"
  {
    if n == 0 then [] else Stars(n - 1) + ["*"]
  }

  /** The pattern labels `bParts` after the leading `**` expansion (line
      92-100), for a candidate of `aLen` labels: the first label becomes
      enough `*` labels to line the rest up with the candidate's end. */
  function ExpandLeading(aLen: nat, bParts: seq<string>, lead: bool): (p: seq<string>)
    requires aLen >= |bParts| >= 1
  {
    if lead then Stars(aLen - (|bParts| - 1)) + bParts[1..] else bParts
  }

  /** Both `**` expansions (line 92-110): the trailing one works on the
      output of the leading one and turns its last label into `*` labels. */
  function ExpandLabels(aLen: nat, bParts: seq<string>, lead: bool, trail: bool): (p: seq<string>)
    requires aLen >= |bParts| >= 1
  {
    var l := ExpandLeading(aLen, bParts, lead);
    if trail then l[..|l| - 1] + Stars(aLen - (|l| - 1)) else l
  }

  /** The expanded labels of the pattern string `b`: `**` at its start or
      end switches the two expansions on. */
  function Expand(aLen: nat, b: string): (p: seq<string>)
    requires aLen >= |SplitHost(b)|
  {
    ExpandLabels(aLen, SplitHost(b), HasPrefix(b, "**"), HasSuffix(b, "**"))
  }

  /** What HostMatches(a, b) decides: the candidate has at least as many
      labels as the raw pattern, and it agrees with the expanded pattern
      label by label. */
  predicate Matches(a: string, b: string)
  {
    var aParts := SplitHost(a);
    |aParts| >= |SplitHost(b)| && LabelsMatch(aParts, Expand(|aParts|, b))
  }

  /** The `append(bParts, "*")` loops of the two expansions. */
  method AppendStars(parts: seq<string>, n: int) returns (r: seq<string>)
    ensures r == parts + Stars(if n < 0 then 0 else n)
  {
    r := parts;
    assert r == parts + Stars(0);
    var i := 0;
    while i < n
      invariant 0 <= i <= (if n < 0 then 0 else n)
      invariant r == parts + Stars(i)
    {
      r := r + ["*"];
      i := i + 1;
    }
  }

  /** The two `**` expansions of HostMatches, on a pattern already split
      into `bParts`. */
  method ExpandWildcards(aLen: nat, bParts: seq<string>, b: string) returns (p: seq<string>)
    requires aLen >= |bParts| >= 1
    ensures p == ExpandLabels(aLen, bParts, HasPrefix(b, "**"), HasSuffix(b, "**"))
  {
    p := bParts;
    if HasPrefix(b, "**") {
      var numWildcards := aLen - (|p| - 1);
      var rest := p[1..];
      p := AppendStars([], numWildcards);
      p := p + rest;
    }
    assert p == ExpandLeading(aLen, bParts, HasPrefix(b, "**"));
    if HasSuffix(b, "**") {
      var numWildcards := aLen - (|p| - 1);
      p := AppendStars(p[..|p| - 1], numWildcards);
    }
  }

  /** HostMatches as the source writes it: an early length check, the two
      expansion loops, a final length check and a label-by-label loop. */
  method HostMatches(a: string, b: string) returns (r: bool)
    ensures r == Matches(a, b)
  {
    var aParts := SplitHost(a);
    var bParts := SplitHost(b);
    if |aParts| < |bParts| {
      FewerLabelsNeverMatch(a, b);
      return false;
    }
    bParts := ExpandWildcards(|aParts|, bParts, b);
    MatchesExpanded(a, b, aParts, bParts);
    if |aParts| != |bParts| {
      return false;
    }
    r := CompareLabels(aParts, bParts);
  }

  /** The label-by-label loop that ends HostMatches. */
  method CompareLabels(aParts: seq<string>, bParts: seq<string>) returns (r: bool)
    requires |aParts| == |bParts|
    ensures r == LabelsMatch(aParts, bParts)
  {
    var i := 0;
    while i < |aParts|
      invariant 0 <= i <= |aParts|
      invariant forall j :: 0 <= j < i ==> LabelMatches(aParts[j], bParts[j])
    {
      if aParts[i] != bParts[i] && bParts[i] != "*" {
        return false;
      }
      i := i + 1;
    }
    return true;
  }

  /** Once the pattern is expanded, matching is label-by-label matching. */
  lemma MatchesExpanded(a: string, b: string, aParts: seq<string>, bParts: seq<string>)
    requires aParts == SplitHost(a) && |aParts| >= |SplitHost(b)|
    requires bParts == Expand(|aParts|, b)
    ensures Matches(a, b) == LabelsMatch(aParts, bParts)
  {
  }

  // ---------------------------------------------------------------------
  // SplitHost

  /** Re-joining the labels with "." gives the name without its trailing
      dots. */
  lemma SplitHostRejoins(host: string)
    ensures Join(SplitHost(host), '.') == TrimRight(host, '.')
  {
    JoinSplit(TrimRight(host, '.'), '.');
  }

  /** Trailing dots do not matter to SplitHost. */
  lemma SplitHostTrailingDot(host: string)
    ensures SplitHost(host + ".") == SplitHost(host)
  {
    TrimRightExtra(host, '.');
  }

  /** A dotted name built from dot-free labels, the last one non-empty,
      splits back into those labels. */
  lemma SplitHostJoin(labels: seq<string>)
    requires |labels| >= 1
    requires forall i :: 0 <= i < |labels| ==> '.' !in labels[i]
    requires labels[|labels| - 1] != []
    ensures SplitHost(Join(labels, '.')) == labels
  {
    var s := Join(labels, '.');
    LastOfJoin(labels);
    assert TrimRight(s, '.') == s;
    SplitJoin(labels, '.');
  }

  lemma {:induction false} LastOfJoin(labels: seq<string>)
    requires |labels| >= 1
    requires labels[|labels| - 1] != []
    ensures var s := Join(labels, '.'); |s| > 0 && s[|s| - 1] == labels[|labels| - 1][|labels[|labels| - 1]| - 1]
  {
    if |labels| > 1 {
      LastOfJoin(labels[1..]);
    }
  }

  lemma SplitHostExample()
    ensures SplitHost("a.b.") == SplitHost("a.b") == ["a", "b"]
  {
    assert "a.b" == Join(["a", "b"], '.');
    SplitHostJoin(["a", "b"]);
    SplitHostTrailingDot("a.b");
  }

  // ---------------------------------------------------------------------
  // HostMatches

  /** After either `**` expansion the pattern has exactly as many labels as
      the candidate, so the final length check can only fail for patterns
      without `**` at either end. */
  lemma ExpandLength(aLen: nat, b: string)
    requires aLen >= |SplitHost(b)|
    ensures HasPrefix(b, "**") || HasSuffix(b, "**") ==> |Expand(aLen, b)| == aLen
    ensures !HasPrefix(b, "**") && !HasSuffix(b, "**") ==> Expand(aLen, b) == SplitHost(b)
  {
  }

  /** Every name matches itself as a pattern: each expanded label is either
      the candidate's own label or `*`. */
  lemma MatchesReflexive(x: string)
    ensures Matches(x, x)
  {
    var parts := SplitHost(x);
    var p := Expand(|parts|, x);
    var lead := ExpandLeading(|parts|, parts, HasPrefix(x, "**"));
    assert |lead| == |parts|;
    assert forall i :: 0 <= i < |lead| ==> LabelMatches(parts[i], lead[i]);
    if HasSuffix(x, "**") {
      assert p == lead[..|lead| - 1] + Stars(1);
    }
    assert forall i :: 0 <= i < |parts| ==> LabelMatches(parts[i], p[i]);
  }

  /** The early length check: a candidate with fewer labels than the raw
      pattern (its `**` label counted) never matches, so `**` always stands
      for at least one label. */
  lemma FewerLabelsNeverMatch(a: string, b: string)
    requires |SplitHost(a)| < |SplitHost(b)|
    ensures !Matches(a, b)
  {
  }

  /** A pattern with `**` at neither end matches exactly the names of the
      same length that agree label by label. */
  lemma PlainPattern(a: string, b: string)
    requires !HasPrefix(b, "**") && !HasSuffix(b, "**")
    ensures Matches(a, b) <==> LabelsMatch(SplitHost(a), SplitHost(b))
  {
  }

  /** Leading `*` labels accept whatever they cover. */
  lemma StarsThen(labels: seq<string>, k: nat, tail: seq<string>)
    requires |labels| == k + |tail|
    ensures LabelsMatch(labels, Stars(k) + tail) <==> LabelsMatch(labels[k..], tail)
  {
    var p := Stars(k) + tail;
    if LabelsMatch(labels[k..], tail) {
      forall i | k <= i < |labels| ensures LabelMatches(labels[i], p[i]) {
        assert labels[k..][i - k] == labels[i];
      }
    }
    if LabelsMatch(labels, p) {
      forall i | 0 <= i < |tail| ensures LabelMatches(labels[k..][i], tail[i]) {
        assert p[k + i] == tail[i];
      }
    }
  }

  /** Trailing `*` labels accept whatever they cover. */
  lemma ThenStars(labels: seq<string>, head: seq<string>, k: nat)
    requires |labels| == |head| + k
    ensures LabelsMatch(labels, head + Stars(k)) <==> LabelsMatch(labels[..|head|], head)
  {
    var p := head + Stars(k);
    if LabelsMatch(labels[..|head|], head) {
      forall i | 0 <= i < |head| ensures LabelMatches(labels[i], p[i]) {
        assert labels[..|head|][i] == labels[i];
      }
    }
  }

  /** `*` labels on both sides of a fixed middle accept whatever they cover. */
  lemma StarsAround(labels: seq<string>, k: nat, inner: seq<string>)
    requires |labels| == k + |inner| + 1
    ensures LabelsMatch(labels, Stars(k) + inner + Stars(1)) <==>
            LabelsMatch(labels[k..|labels| - 1], inner)
  {
    ThenStars(labels, Stars(k) + inner, 1);
    StarsThen(labels[..|labels| - 1], k, inner);
    assert labels[..|labels| - 1][k..] == labels[k..|labels| - 1];
  }

  /** Leading `**`: the candidate matches exactly when it has at least one
      label more than the pattern's fixed tail and ends with labels the
      tail accepts. */
  lemma LeadingWildcard(a: string, b: string)
    requires HasPrefix(b, "**") && !HasSuffix(b, "**")
    ensures var aParts, bParts := SplitHost(a), SplitHost(b);
      Matches(a, b) <==>
        |aParts| > |bParts| - 1 && LabelsMatch(aParts[|aParts| - (|bParts| - 1)..], bParts[1..])
  {
    var aParts, bParts := SplitHost(a), SplitHost(b);
    if |aParts| >= |bParts| {
      var k := |aParts| - (|bParts| - 1);
      assert Expand(|aParts|, b) == ExpandLeading(|aParts|, bParts, true) == Stars(k) + bParts[1..];
      StarsThen(aParts, k, bParts[1..]);
    }
  }

  /** One tail label the candidate lacks is enough to reject a leading-`**`
      pattern. */
  lemma LeadingMismatch(a: string, b: string, i: nat)
    requires HasPrefix(b, "**") && !HasSuffix(b, "**")
    requires |SplitHost(a)| >= |SplitHost(b)| > i > 0
    requires !LabelMatches(SplitHost(a)[|SplitHost(a)| - |SplitHost(b)| + i], SplitHost(b)[i])
    ensures !Matches(a, b)
  {
    var aParts, bParts := SplitHost(a), SplitHost(b);
    LeadingWildcard(a, b);
    var k := |aParts| - (|bParts| - 1);
    assert aParts[k..][i - 1] == aParts[|aParts| - |bParts| + i];
    assert bParts[1..][i - 1] == bParts[i];
  }

  /** Trailing `**`: the candidate matches exactly when it has more labels
      than the pattern's fixed head and starts with labels the head accepts. */
  lemma TrailingWildcard(a: string, b: string)
    requires !HasPrefix(b, "**") && HasSuffix(b, "**")
    ensures var aParts, bParts := SplitHost(a), SplitHost(b);
      Matches(a, b) <==>
        |aParts| > |bParts| - 1 && LabelsMatch(aParts[..|bParts| - 1], bParts[..|bParts| - 1])
  {
    var aParts, bParts := SplitHost(a), SplitHost(b);
    if |aParts| >= |bParts| {
      var head := bParts[..|bParts| - 1];
      assert Expand(|aParts|, b) == head + Stars(|aParts| - |head|);
      ThenStars(aParts, head, |aParts| - |head|);
    }
  }

  /** The pattern after both expansions, when there are inner labels: the
      first label becomes `*` labels and the last label one `*`. */
  lemma BothEndsExpansion(aLen: nat, b: string)
    requires HasPrefix(b, "**") && HasSuffix(b, "**")
    requires aLen >= |SplitHost(b)| >= 2
    ensures var bParts := SplitHost(b);
      Expand(aLen, b) == Stars(aLen - (|bParts| - 1)) + bParts[1..|bParts| - 1] + Stars(1)
  {
    var bParts := SplitHost(b);
    var lead := ExpandLeading(aLen, bParts, true);
    assert lead == Stars(aLen - (|bParts| - 1)) + bParts[1..];
    assert lead[..|lead| - 1] == Stars(aLen - (|bParts| - 1)) + bParts[1..|bParts| - 1];
  }

  /** `**` at both ends: the leading expansion runs first and the trailing
      one then turns the last label into `*` too, so only the pattern's
      inner labels constrain the candidate, aligned with its end; the
      pattern `**` alone accepts every name. */
  lemma BothEndsWildcard(a: string, b: string)
    requires HasPrefix(b, "**") && HasSuffix(b, "**")
    ensures var aParts, bParts := SplitHost(a), SplitHost(b);
      Matches(a, b) <==>
        |aParts| >= |bParts| &&
        (|bParts| == 1 ||
         LabelsMatch(aParts[|aParts| - (|bParts| - 1)..|aParts| - 1], bParts[1..|bParts| - 1]))
  {
    var aParts, bParts := SplitHost(a), SplitHost(b);
    if |aParts| < |bParts| {
      FewerLabelsNeverMatch(a, b);
    } else if |bParts| == 1 {
      BothEndsOneLabel(a, b);
    } else {
      BothEndsLong(a, b, aParts, bParts);
    }
  }

  lemma BothEndsLong(a: string, b: string, aParts: seq<string>, bParts: seq<string>)
    requires HasPrefix(b, "**") && HasSuffix(b, "**")
    requires aParts == SplitHost(a) && bParts == SplitHost(b) && |aParts| >= |bParts| >= 2
    ensures Matches(a, b) <==> LabelsMatch(aParts[|aParts| - (|bParts| - 1)..|aParts| - 1], bParts[1..|bParts| - 1])
  {
    var k, inner := |aParts| - (|bParts| - 1), bParts[1..|bParts| - 1];
    var e := Expand(|aParts|, b);
    calc {
      Matches(a, b);
    == { MatchesExpanded(a, b, aParts, e); }
      LabelsMatch(aParts, e);
    == { BothEndsExpansion(|aParts|, b); }
      LabelsMatch(aParts, Stars(k) + inner + Stars(1));
    == { StarsAround(aParts, k, inner); }
      LabelsMatch(aParts[k..|aParts| - 1], inner);
    }
  }

  lemma BothEndsOneLabel(a: string, b: string)
    requires HasPrefix(b, "**") && HasSuffix(b, "**")
    requires |SplitHost(b)| == 1
    ensures Matches(a, b)
  {
    var aParts := SplitHost(a);
    var lead := ExpandLeading(|aParts|, SplitHost(b), true);
    assert lead == Stars(|aParts|);
    assert Expand(|aParts|, b) == Stars(|aParts| - 1) + Stars(1);
  }

  /** A `*` pattern label accepts every label; a candidate label `*` is
      accepted only by the pattern label `*`. */
  lemma StarLabels(name: string, pat: string)
    ensures LabelMatches(name, "*")
    ensures LabelMatches("*", pat) <==> pat == "*"
  {
  }

  // ---------------------------------------------------------------------
  // The DNS-SD service patterns

  /** Two and three dot-free labels, the last one non-empty, joined with
      dots. */
  lemma SplitHostTwo(x1: string, x2: string)
    requires '.' !in x1 && '.' !in x2 && x2 != []
    ensures SplitHost(x1 + "." + x2) == [x1, x2]
  {
    var labels := [x1, x2];
    assert Join(labels[1..], '.') == x2;
    assert x1 + "." + x2 == Join(labels, '.');
    SplitHostJoin(labels);
  }

  lemma SplitHostThree(x1: string, x2: string, x3: string)
    requires '.' !in x1 && '.' !in x2 && '.' !in x3 && x3 != []
    ensures SplitHost(x1 + "." + x2 + "." + x3) == [x1, x2, x3]
  {
    var labels := [x1, x2, x3];
    assert Join(labels[2..], '.') == x3;
    assert Join(labels[1..], '.') == x2 + "." + x3;
    assert x1 + "." + x2 + "." + x3 == Join(labels, '.');
    SplitHostJoin(labels);
  }

  lemma TcpPatternSplits(m: string)
    requires m == "**._tcp.local"
    ensures SplitHost(m) == ["**", "_tcp", "local"]
    ensures HasPrefix(m, "**") && !HasSuffix(m, "**")
  {
    assert m == "**" + "." + "_tcp" + "." + "local";
    SplitHostThree("**", "_tcp", "local");
  }

  lemma UdpPatternSplits(m: string)
    requires m == "**._udp.local"
    ensures SplitHost(m) == ["**", "_udp", "local"]
    ensures HasPrefix(m, "**") && !HasSuffix(m, "**")
  {
    assert m == "**" + "." + "_udp" + "." + "local";
    SplitHostThree("**", "_udp", "local");
  }

  /** `**._tcp.local` accepts a service name with labels before `_tcp.local`. */
  lemma TcpPatternMatchesService(a: string, m: string)
    requires a == "a._airplay._tcp.local" && m == "**._tcp.local"
    ensures Matches(a, m)
  {
    var x1, x2, x3, x4 := "a", "_airplay", "_tcp", "local";
    var joined := x1 + "." + x2 + "." + x3 + "." + x4;
    assert |a| == |joined|;
    assert forall i :: 0 <= i < |a| ==> a[i] == joined[i];
    assert a == joined;
    SplitHostFour(x1, x2, x3, x4);
    TcpPattern(a, m);
  }

  /** `**._tcp.local` does not accept `_tcp.local` itself: `**` stands for
      at least one label. */
  lemma TcpPatternNeedsALabel(a: string, m: string)
    requires a == "_tcp.local" && m == "**._tcp.local"
    ensures !Matches(a, m)
  {
    assert a == "_tcp" + "." + "local";
    SplitHostTwo("_tcp", "local");
    TcpPattern(a, m);
  }

  /** Labels without `*` accept exactly themselves. */
  lemma LabelsMatchLiteral(labels: seq<string>, pats: seq<string>)
    requires forall i :: 0 <= i < |pats| ==> pats[i] != "*"
    ensures LabelsMatch(labels, pats) <==> labels == pats
  {
  }

  /** A pattern `**.<tail>` whose tail has no `*` label accepts exactly the
      names that have the tail's labels at the end and at least one label
      before them. */
  lemma LeadingWildcardLiteralTail(a: string, b: string, tail: seq<string>)
    requires HasPrefix(b, "**") && !HasSuffix(b, "**")
    requires SplitHost(b) == ["**"] + tail
    requires forall i :: 0 <= i < |tail| ==> tail[i] != "*"
    ensures var aParts := SplitHost(a);
      Matches(a, b) <==> |aParts| > |tail| && aParts[|aParts| - |tail|..] == tail
  {
    var aParts := SplitHost(a);
    LeadingWildcard(a, b);
    assert (["**"] + tail)[1..] == tail;
    if |aParts| > |tail| {
      LabelsMatchLiteral(aParts[|aParts| - |tail|..], tail);
    }
  }

  /** A pattern `**.<transport>.local`, with neither label `*`, accepts the
      names of three labels or more that end in `<transport>.local`. */
  lemma TransportPattern(a: string, b: string, transport: string)
    requires transport != "*"
    requires HasPrefix(b, "**") && !HasSuffix(b, "**")
    requires SplitHost(b) == ["**", transport, "local"]
    ensures var aParts := SplitHost(a);
      Matches(a, b) <==> |aParts| >= 3 && aParts[|aParts| - 2..] == [transport, "local"]
  {
    assert ["**", transport, "local"] == ["**"] + [transport, "local"];
    LeadingWildcardLiteralTail(a, b, [transport, "local"]);
  }

  /** What `**._tcp.local` accepts: names of three labels or more whose last
      two are `_tcp` and `local`. */
  lemma TcpPattern(a: string, m: string)
    requires m == "**._tcp.local"
    ensures var aParts := SplitHost(a);
      Matches(a, m) <==> |aParts| >= 3 && aParts[|aParts| - 2..] == ["_tcp", "local"]
  {
    TcpPatternSplits(m);
    TransportPattern(a, m, "_tcp");
  }

  /** What `**._udp.local` accepts: names of three labels or more whose last
      two are `_udp` and `local`. */
  lemma UdpPattern(a: string, m: string)
    requires m == "**._udp.local"
    ensures var aParts := SplitHost(a);
      Matches(a, m) <==> |aParts| >= 3 && aParts[|aParts| - 2..] == ["_udp", "local"]
  {
    UdpPatternSplits(m);
    TransportPattern(a, m, "_udp");
  }

  /** `**._tcp.local` does not accept a name whose fixed tail differs. */
  lemma TcpPatternNeedsTransport(a: string, m: string)
    requires a == "a.b.c.local" && m == "**._tcp.local"
    ensures !Matches(a, m)
  {
    assert a == "a" + "." + "b" + "." + "c" + "." + "local";
    SplitHostFour("a", "b", "c", "local");
    TcpPattern(a, m);
  }

  /** Four dot-free labels, the last one non-empty, joined with dots. */
  lemma SplitHostFour(x1: string, x2: string, x3: string, x4: string)
    requires '.' !in x1 && '.' !in x2 && '.' !in x3 && '.' !in x4 && x4 != []
    ensures SplitHost(x1 + "." + x2 + "." + x3 + "." + x4) == [x1, x2, x3, x4]
  {
    var labels := [x1, x2, x3, x4];
    assert Join(labels[3..], '.') == x4;
    assert Join(labels[2..], '.') == x3 + "." + x4;
    assert Join(labels[1..], '.') == x2 + "." + x3 + "." + x4;
    assert x1 + "." + x2 + "." + x3 + "." + x4 == Join(labels, '.');
    SplitHostJoin(labels);
  }

  lemma MetaPatternSplits(m: string)
    requires m == "_services._dns-sd._udp.local"
    ensures SplitHost(m) == ["_services", "_dns-sd", "_udp", "local"]
    ensures !HasPrefix(m, "**") && !HasSuffix(m, "**")
  {
    assert m == "_services" + "." + "_dns-sd" + "." + "_udp" + "." + "local";
    SplitHostFour("_services", "_dns-sd", "_udp", "local");
  }

  /** What the DNS-SD service enumeration name `_services._dns-sd._udp.local`
      accepts as a pattern: exactly the names with those four labels. */
  lemma MetaPattern(a: string, m: string)
    requires m == "_services._dns-sd._udp.local"
    ensures Matches(a, m) <==> SplitHost(a) == ["_services", "_dns-sd", "_udp", "local"]
  {
    MetaPatternSplits(m);
    PlainLiteralPattern(a, m, ["_services", "_dns-sd", "_udp", "local"]);
  }

  /** A pattern without `*` labels and without `**` at either end accepts
      exactly the names with its labels. */
  lemma PlainLiteralPattern(a: string, b: string, labels: seq<string>)
    requires !HasPrefix(b, "**") && !HasSuffix(b, "**")
    requires SplitHost(b) == labels && forall i :: 0 <= i < |labels| ==> labels[i] != "*"
    ensures Matches(a, b) <==> SplitHost(a) == labels
  {
    PlainPattern(a, b);
    LabelsMatchLiteral(SplitHost(a), labels);
  }
}
