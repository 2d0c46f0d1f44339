/** The text parsers of `src/avahi.go`: the line parser of the output of
    `avahi-browse -arpt` (inside getAvahiServices) and the pairing of the
    raw and human-readable service type lists (getAvahiServiceTypes). The
    command output is a parameter; a Go panic (an index out of range, or the
    explicit panic on an unknown line type) is an `Err`. */
module Avahi {
  import opened GoStrings
  import opened Wrappers

  datatype AvahiService = AvahiService(
    Interface: string,
    Protocol: string,
    Name: string,
    ServiceType: string,
    Domain: string,
    Hostname: string,
    Address: string,
    Port: string,
    TxtRecords: seq<string>)

  datatype AvahiServiceType = AvahiServiceType(DNSSDName: string, NiceName: string)

  /** Why the Go code panics: Go's runtime error for `parts[index]` on a
      slice of `length` elements, or the panic of the `default` case. */
  datatype ParseError = IndexOutOfRange(index: nat, length: nat) | UnknownLineType(lineType: string)

  /** The five fields that identify a service in a resolve (`=`) line. */
  function KeyOf(svc: AvahiService): seq<string>
  {
    [svc.Interface, svc.Protocol, svc.Name, svc.ServiceType, svc.Domain]
  }

  /** A service as a `+` line adds it: the five identifying fields, the
      rest empty. */
  function Added(parts: seq<string>): AvahiService
    requires |parts| >= 6
  {
    AvahiService(parts[1], parts[2], parts[3], parts[4], parts[5], "", "", "", [])
  }

  /** A service after a `=` line has resolved it. */
  function Resolved(svc: AvahiService, parts: seq<string>): AvahiService
    requires |parts| >= 10
  {
    svc.(Hostname := parts[6], Address := parts[7], Port := parts[8], TxtRecords := [parts[9]])
  }

  // ---------------------------------------------------------------------
  // Service lines

  /** The `&&` chain that compares a service's fields `key[j..]` with
      `parts[j + 1..]`: it stops at the first difference, and reading a
      field past the end of `parts` panics. */
  function KeyFieldsMatch(key: seq<string>, parts: seq<string>, j: nat): Result<bool, ParseError>
    requires j <= |key|
    decreases |key| - j
  {
    if j == |key| then Ok(true)
    else if j + 1 >= |parts| then Err(IndexOutOfRange(j + 1, |parts|))
    else if key[j] != parts[j + 1] then Ok(false)
    else KeyFieldsMatch(key, parts, j + 1)
  }

  /** The search loop for a resolve line, from index `i` on: the index of
      the first service whose fields match, -1 when there is none, or the
      panic of a comparison. */
  function FindFrom(services: seq<AvahiService>, parts: seq<string>, i: nat): Result<int, ParseError>
    requires i <= |services|
    decreases |services| - i
  {
    if i == |services| then Ok(-1)
    else
      match KeyFieldsMatch(KeyOf(services[i]), parts, 0)
      case Err(e) => Err(e)
      case Ok(true) => Ok(i)
      case Ok(false) => FindFrom(services, parts, i + 1)
  }

  /** One loop iteration of the line parser. */
  function Step(services: seq<AvahiService>, line: string): Result<seq<AvahiService>, ParseError>
  {
    if line == "" then Ok(services)
    else
      var parts := Split(line, ';');
      if parts[0] == "+" then
        if |parts| < 6 then Err(IndexOutOfRange(|parts|, |parts|))
        else Ok(services + [Added(parts)])
      else if parts[0] == "-" then Ok(services)
      else if parts[0] == "=" then
        match FindFrom(services, parts, 0)
        case Err(e) => Err(e)
        case Ok(i) =>
          if i < 0 || i >= |services| then
            // the warning then logs parts[1] to parts[5]
            if |parts| < 6 then Err(IndexOutOfRange(|parts|, |parts|)) else Ok(services)
          else if |parts| < 10 then Err(IndexOutOfRange(|parts|, |parts|))
          else Ok(services[i := Resolved(services[i], parts)])
      else Err(UnknownLineType(parts[0]))
  }

  /** The parser over its first lines; the first panic ends it. */
  function ParseLines(lines: seq<string>): Result<seq<AvahiService>, ParseError>
  {
    if |lines| == 0 then Ok([])
    else
      match ParseLines(lines[..|lines| - 1])
      case Err(e) => Err(e)
      case Ok(services) => Step(services, lines[|lines| - 1])
  }

  /** The services listed by an `avahi-browse -arpt` output. */
  function ParseOutput(output: string): Result<seq<AvahiService>, ParseError>
  {
    ParseLines(Split(output, '\n'))
  }

  /** The line parser of getAvahiServices, source lines 35-77. */
  method ParseAvahiServices(output: string) returns (r: Result<seq<AvahiService>, ParseError>)
    ensures r == ParseOutput(output)
  {
    var lines := Split(output, '\n');
    var services: seq<AvahiService> := [];
    for n := 0 to |lines|
      invariant ParseLines(lines[..n]) == Ok(services)
    {
      assert lines[..n + 1][..n] == lines[..n];
      var step := ParseLine(services, lines[n]);
      if step.Err? {
        r := step;
        ErrorEndsParse(lines, n + 1);
        return;
      }
      services := step.value;
    }
    assert lines[..|lines|] == lines;
    r := Ok(services);
  }

  /** One iteration of the line loop, source lines 38-74. */
  method ParseLine(services: seq<AvahiService>, line: string) returns (r: Result<seq<AvahiService>, ParseError>)
    ensures r == Step(services, line)
  {
    if line == "" {
      return Ok(services);
    }
    var parts := Split(line, ';');
    if parts[0] == "+" {
      if |parts| < 6 {
        return Err(IndexOutOfRange(|parts|, |parts|));
      }
      return Ok(services + [AvahiService(parts[1], parts[2], parts[3], parts[4], parts[5], "", "", "", [])]);
    } else if parts[0] == "-" {
      // removals are ignored
      return Ok(services);
    } else if parts[0] == "=" {
      var search := FindService(services, parts);
      if search.Err? {
        return Err(search.error);
      }
      var found := search.value;
      if found < 0 {
        if |parts| < 6 {
          return Err(IndexOutOfRange(|parts|, |parts|));
        }
        return Ok(services);
      }
      if |parts| < 10 {
        return Err(IndexOutOfRange(|parts|, |parts|));
      }
      return Ok(services[found := services[found].(
        Hostname := parts[6], Address := parts[7], Port := parts[8], TxtRecords := [parts[9]])]);
    } else {
      return Err(UnknownLineType(parts[0]));
    }
  }

  /** The search for the service a resolve line names, source lines 55-61. */
  method FindService(services: seq<AvahiService>, parts: seq<string>) returns (r: Result<int, ParseError>)
    ensures r == FindFrom(services, parts, 0)
    ensures r.Ok? ==> -1 <= r.value < |services|
  {
    var i := 0;
    while i < |services|
      invariant 0 <= i <= |services|
      invariant FindFrom(services, parts, 0) == FindFrom(services, parts, i)
    {
      var m := KeyFieldsMatch(KeyOf(services[i]), parts, 0);
      if m.Err? {
        return Err(m.error);
      }
      if m.value {
        return Ok(i);
      }
      i := i + 1;
    }
    return Ok(-1);
  }

  /** A panic on one line is the result of the whole parse. */
  lemma {:induction false} ErrorEndsParse(lines: seq<string>, m: nat)
    requires m <= |lines| && ParseLines(lines[..m]).Err?
    ensures ParseLines(lines) == ParseLines(lines[..m])
    decreases |lines| - m
  {
    if m < |lines| {
      var k := |lines| - 1;
      assert lines[..k][..m] == lines[..m];
      ErrorEndsParse(lines[..k], m);
    } else {
      assert lines[..m] == lines;
    }
  }

  // ---------------------------------------------------------------------
  // Properties of one line

  /** With all five fields present the comparison chain cannot panic, and it
      is equality of the key with `parts[1..6]`. */
  lemma {:induction false} KeyFieldsMatchComplete(key: seq<string>, parts: seq<string>, j: nat)
    requires |key| == 5 && j <= 5 && |parts| >= 6
    ensures KeyFieldsMatch(key, parts, j) == Ok(key[j..] == parts[j + 1..6])
    decreases 5 - j
  {
    if j < 5 {
      KeyFieldsMatchComplete(key, parts, j + 1);
      assert key[j..] == [key[j]] + key[j + 1..];
      assert parts[j + 1..6] == [parts[j + 1]] + parts[j + 2..6];
    }
  }

  /** With all five fields present the search finds the first service whose
      key is `parts[1..6]`, or reports that there is none. */
  lemma {:induction false} FindFromComplete(services: seq<AvahiService>, parts: seq<string>, i: nat)
    requires i <= |services| && |parts| >= 6
    ensures FindFrom(services, parts, i).Ok?
    ensures var r := FindFrom(services, parts, i).value;
      (r < 0 ==> forall j :: i <= j < |services| ==> KeyOf(services[j]) != parts[1..6]) &&
      (r >= 0 ==> i <= r < |services| && KeyOf(services[r]) == parts[1..6] &&
                  forall j :: i <= j < r ==> KeyOf(services[j]) != parts[1..6])
    decreases |services| - i
  {
    if i < |services| {
      KeyFieldsMatchComplete(KeyOf(services[i]), parts, 0);
      FindFromComplete(services, parts, i + 1);
    }
  }

  /** Empty lines are skipped. */
  lemma EmptyLineSkipped(services: seq<AvahiService>)
    ensures Step(services, "") == Ok(services)
  {
  }

  /** A line of `+` and five `;`-free fields appends exactly one service with
      those fields and nothing resolved yet. */
  lemma AddLine(services: seq<AvahiService>, fields: seq<string>)
    requires |fields| == 5 && forall i :: 0 <= i < 5 ==> ';' !in fields[i]
    ensures var s := Step(services, Join(["+"] + fields, ';'));
      s.Ok? && |s.value| == |services| + 1 && s.value[..|services|] == services &&
      var added := s.value[|services|];
      KeyOf(added) == fields &&
      added.Hostname == "" && added.Address == "" && added.Port == "" && added.TxtRecords == []
  {
    var parts := ["+"] + fields;
    SplitJoin(parts, ';');
    assert Join(parts, ';') != "" by {
      assert Join(parts, ';') == parts[0] + [';'] + Join(parts[1..], ';');
    }
    assert parts[1..6] == fields;
  }

  /** Any `+` line with at least five fields after the type appends one
      service keyed by those five; fields after them are ignored. */
  lemma LongAddLine(services: seq<AvahiService>, line: string)
    requires IsAddLine(line) && |Split(line, ';')| >= 6
    ensures var s := Step(services, line);
      s.Ok? && |s.value| == |services| + 1 && s.value[..|services|] == services &&
      var added := s.value[|services|];
      KeyOf(added) == Split(line, ';')[1..6] &&
      added.Hostname == "" && added.Address == "" && added.Port == "" && added.TxtRecords == []
  {
  }

  /** A `+` line with fewer than five fields panics at the first missing
      one. */
  lemma ShortAddLine(services: seq<AvahiService>, line: string)
    requires line != "" && Split(line, ';')[0] == "+" && |Split(line, ';')| < 6
    ensures Step(services, line) == Err(IndexOutOfRange(|Split(line, ';')|, |Split(line, ';')|))
  {
  }

  /** A `-` line changes nothing. */
  lemma RemoveLineIgnored(services: seq<AvahiService>, line: string)
    requires line != "" && Split(line, ';')[0] == "-"
    ensures Step(services, line) == Ok(services)
  {
  }

  /** A complete `=` line resolves the first service with the five given
      fields and leaves every other service, and the count, as they were. */
  lemma ResolveLine(services: seq<AvahiService>, line: string, i: nat)
    requires line != "" && Split(line, ';')[0] == "=" && |Split(line, ';')| >= 10
    requires i < |services| && KeyOf(services[i]) == Split(line, ';')[1..6]
    requires forall j :: 0 <= j < i ==> KeyOf(services[j]) != Split(line, ';')[1..6]
    ensures var parts := Split(line, ';');
      Step(services, line) == Ok(services[i := Resolved(services[i], parts)])
  {
    FindFromComplete(services, Split(line, ';'), 0);
  }

  /** What a resolve changes: the four resolved fields of one service. */
  lemma ResolvedKeepsKey(svc: AvahiService, parts: seq<string>)
    requires |parts| >= 10
    ensures KeyOf(Resolved(svc, parts)) == KeyOf(svc)
    ensures Resolved(svc, parts).Hostname == parts[6] && Resolved(svc, parts).Address == parts[7]
    ensures Resolved(svc, parts).Port == parts[8] && Resolved(svc, parts).TxtRecords == [parts[9]]
  {
  }

  /** A `=` line that matches no service changes nothing. */
  lemma ResolveLineNoMatch(services: seq<AvahiService>, line: string)
    requires line != "" && Split(line, ';')[0] == "=" && |Split(line, ';')| >= 6
    requires forall j :: 0 <= j < |services| ==> KeyOf(services[j]) != Split(line, ';')[1..6]
    ensures Step(services, line) == Ok(services)
  {
    FindFromComplete(services, Split(line, ';'), 0);
  }

  /** A `=` line with fewer than five fields panics at the first missing
      one: either in a comparison or, when no service matched, in the
      warning that logs the five fields. */
  lemma ShortResolveLine(services: seq<AvahiService>, line: string)
    requires line != "" && Split(line, ';')[0] == "=" && |Split(line, ';')| < 6
    ensures Step(services, line) == Err(IndexOutOfRange(|Split(line, ';')|, |Split(line, ';')|))
  {
    FindFromShort(services, Split(line, ';'), 0);
  }

  lemma {:induction false} KeyFieldsShort(key: seq<string>, parts: seq<string>, j: nat)
    requires |key| == 5 && j + 1 <= |parts| < 6
    ensures KeyFieldsMatch(key, parts, j) == Ok(false) ||
            KeyFieldsMatch(key, parts, j) == Err(IndexOutOfRange(|parts|, |parts|))
    decreases 5 - j
  {
    if j + 1 < |parts| && key[j] == parts[j + 1] {
      KeyFieldsShort(key, parts, j + 1);
    }
  }

  lemma {:induction false} FindFromShort(services: seq<AvahiService>, parts: seq<string>, i: nat)
    requires i <= |services| && 1 <= |parts| < 6
    ensures FindFrom(services, parts, i) == Ok(-1) ||
            FindFrom(services, parts, i) == Err(IndexOutOfRange(|parts|, |parts|))
    decreases |services| - i
  {
    if i < |services| {
      KeyFieldsShort(KeyOf(services[i]), parts, 0);
      FindFromShort(services, parts, i + 1);
    }
  }

  /** A `=` line with five to eight fields panics exactly when a service
      matches, on the missing resolved fields. */
  lemma MidResolveLine(services: seq<AvahiService>, line: string)
    requires line != "" && Split(line, ';')[0] == "=" && 6 <= |Split(line, ';')| < 10
    ensures var parts := Split(line, ';');
      (Step(services, line).Err? <==> exists j :: 0 <= j < |services| && KeyOf(services[j]) == parts[1..6]) &&
      (Step(services, line).Ok? ==> Step(services, line) == Ok(services))
  {
    FindFromComplete(services, Split(line, ';'), 0);
  }

  /** Any other line type panics. */
  lemma UnknownLine(services: seq<AvahiService>, line: string)
    requires line != ""
    requires Split(line, ';')[0] != "+" && Split(line, ';')[0] != "-" && Split(line, ';')[0] != "="
    ensures Step(services, line) == Err(UnknownLineType(Split(line, ';')[0]))
  {
  }

  // ---------------------------------------------------------------------
  // Properties of the whole parse

  predicate IsAddLine(line: string)
  {
    line != "" && Split(line, ';')[0] == "+"
  }

  /** The number of `+` lines among the first lines. */
  function CountAddLines(lines: seq<string>): nat
  {
    if |lines| == 0 then 0
    else CountAddLines(lines[..|lines| - 1]) + (if IsAddLine(lines[|lines| - 1]) then 1 else 0)
  }

  /** Only `+` lines change the number of services, by one each. */
  lemma StepCount(services: seq<AvahiService>, line: string)
    requires Step(services, line).Ok?
    ensures |Step(services, line).value| == |services| + (if IsAddLine(line) then 1 else 0)
  {
  }

  /** A parse that succeeds lists one service per `+` line. */
  lemma {:induction false} ServiceCount(lines: seq<string>)
    requires ParseLines(lines).Ok?
    ensures |ParseLines(lines).value| == CountAddLines(lines)
  {
    if |lines| > 0 {
      var pre := lines[..|lines| - 1];
      ServiceCount(pre);
      StepCount(ParseLines(pre).value, lines[|lines| - 1]);
    }
  }

  /** No line changes the five identifying fields of a listed service, so
      they are always those of the service's `+` line. */
  lemma StepKeepsKeys(services: seq<AvahiService>, line: string, i: nat)
    requires Step(services, line).Ok? && i < |services|
    ensures i < |Step(services, line).value| && KeyOf(Step(services, line).value[i]) == KeyOf(services[i])
  {
  }

  // ---------------------------------------------------------------------
  // Service types

  /** The pairing loop over its first `n` raw lines: `niceParts[i]` is read
      before the empty-line test, so a shorter nice list panics. */
  function PairLines(raw: seq<string>, nice: seq<string>, n: nat): Result<seq<AvahiServiceType>, ParseError>
    requires n <= |raw|
  {
    if n == 0 then Ok([])
    else
      match PairLines(raw, nice, n - 1)
      case Err(e) => Err(e)
      case Ok(res) =>
        if n - 1 >= |nice| then Err(IndexOutOfRange(n - 1, |nice|))
        else if raw[n - 1] == "" then Ok(res)
        else Ok(res + [AvahiServiceType(raw[n - 1], nice[n - 1])])
  }

  /** The service types that getAvahiServiceTypes builds from the outputs
      of `avahi-browse --dump-db --no-db-lookup` (raw) and
      `avahi-browse --dump-db` (nice). */
  function ServiceTypes(rawOut: string, niceOut: string): Result<seq<AvahiServiceType>, ParseError>
  {
    var raw := Split(rawOut, '\n');
    PairLines(raw, Split(niceOut, '\n'), |raw|)
  }

  /** The pairing loop of getAvahiServiceTypes, source lines 107-121. */
  method PairServiceTypes(rawOut: string, niceOut: string) returns (r: Result<seq<AvahiServiceType>, ParseError>)
    ensures r == ServiceTypes(rawOut, niceOut)
  {
    var rawParts := Split(rawOut, '\n');
    var niceParts := Split(niceOut, '\n');
    var res: seq<AvahiServiceType> := [];
    for i := 0 to |rawParts|
      invariant PairLines(rawParts, niceParts, i) == Ok(res)
    {
      var rawPart := rawParts[i];
      if i >= |niceParts| {
        r := Err(IndexOutOfRange(i, |niceParts|));
        PairErrorEnds(rawParts, niceParts, i + 1, |rawParts|);
        return;
      }
      var nicePart := niceParts[i];
      if rawPart == "" {
        continue;
      }
      res := res + [AvahiServiceType(rawPart, nicePart)];
    }
    r := Ok(res);
  }

  lemma {:induction false} PairErrorEnds(raw: seq<string>, nice: seq<string>, m: nat, n: nat)
    requires m <= n <= |raw| && PairLines(raw, nice, m).Err?
    ensures PairLines(raw, nice, n) == PairLines(raw, nice, m)
    decreases n - m
  {
    if m < n {
      PairErrorEnds(raw, nice, m, n - 1);
    }
  }

  /** The indices of the non-empty raw lines among the first `n`, in order. */
  function NonEmptyIndices(raw: seq<string>, n: nat): (idx: seq<nat>)
    requires n <= |raw|
    ensures forall j :: 0 <= j < |idx| ==> idx[j] < n && raw[idx[j]] != ""
    ensures forall j, k :: 0 <= j < k < |idx| ==> idx[j] < idx[k]
  {
    if n == 0 then []
    else NonEmptyIndices(raw, n - 1) + (if raw[n - 1] == "" then [] else [n - 1])
  }

  /** Every non-empty raw line is listed. */
  lemma {:induction false} NonEmptyIndicesComplete(raw: seq<string>, n: nat, i: nat)
    requires n <= |raw| && i < n && raw[i] != ""
    ensures i in NonEmptyIndices(raw, n)
  {
    var pre := NonEmptyIndices(raw, n - 1);
    if i < n - 1 {
      NonEmptyIndicesComplete(raw, n - 1, i);
      assert i in pre;
    } else {
      assert NonEmptyIndices(raw, n) == pre + [i];
    }
  }

  /** The pairing panics exactly when the nice output has fewer lines. */
  lemma {:induction false} PairFailsIff(raw: seq<string>, nice: seq<string>, n: nat)
    requires n <= |raw|
    ensures PairLines(raw, nice, n).Err? <==> |nice| < n
  {
    if n > 0 {
      PairFailsIff(raw, nice, n - 1);
    }
  }

  /** Otherwise there is one entry per non-empty raw line, in order, that
      pairs raw line i with nice line i. */
  lemma {:induction false} PairEntries(raw: seq<string>, nice: seq<string>, n: nat)
    requires n <= |raw| && n <= |nice|
    ensures PairLines(raw, nice, n).Ok?
    ensures var res, idx := PairLines(raw, nice, n).value, NonEmptyIndices(raw, n);
      |res| == |idx| &&
      forall j :: 0 <= j < |res| ==> res[j] == AvahiServiceType(raw[idx[j]], nice[idx[j]])
  {
    if n > 0 {
      PairEntries(raw, nice, n - 1);
    }
  }
}
