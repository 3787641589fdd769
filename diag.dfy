/** The command-line side of 3dt.go: the version banner and the one-shot
    local diagnostic that reports unhealthy units and picks the exit code. */
module Diag {
  import opened Wrappers
  import opened Structures
  import Text

  /** The banner printed for `-version`; `version` and `revision` are the
      agent's build-time version and revision strings. It starts with
      "Version: ", carries the version, then ", Revision: " and the revision. */
  function GetVersion(version: string, revision: string): (banner: string)
    ensures "Version: " + version + ", Revision: " <= banner
    ensures |banner| == 21 + |version| + |revision|
    ensures banner[21 + |version|..] == revision
  {
    "Version: " + version + ", Revision: " + revision
  }

  /** A banner names its version and revision unambiguously as long as the
      version itself contains no comma. */
  lemma GetVersionInjective(v1: string, r1: string, v2: string, r2: string)
    requires ',' !in v1 && ',' !in v2
    requires GetVersion(v1, r1) == GetVersion(v2, r2)
    ensures v1 == v2 && r1 == r2
  {
    Text.SplitAtSeparator("Version: ", ", Revision: ", v1, r1, v2, r2);
  }

  /** The line printed for an unhealthy unit: "[<id>]: <title> <output>" and a newline. */
  function ReportLine(u: UnitHealthResponseFields): (line: string)
    ensures "[" + u.unitId + "]: " <= line
    ensures |line| == |u.unitId| + |u.unitTitle| + |u.unitOutput| + 6
    ensures line[|u.unitId| + 4..|line| - 1] == u.unitTitle + " " + u.unitOutput
    ensures line[|line| - 1] == '\n'
  {
    "[" + u.unitId + "]: " + u.unitTitle + " " + u.unitOutput + "\n"
  }

  /** Two report lines that are equal name the same unit id, as long as
      the ids contain no closing bracket. */
  lemma ReportLineNamesUnit(u1: UnitHealthResponseFields, u2: UnitHealthResponseFields)
    requires ']' !in u1.unitId && ']' !in u2.unitId
    requires ReportLine(u1) == ReportLine(u2)
    ensures u1.unitId == u2.unitId
  {
    var rest1 := u1.unitTitle + " " + u1.unitOutput + "\n";
    var rest2 := u2.unitTitle + " " + u2.unitOutput + "\n";
    assert ReportLine(u1) == "[" + u1.unitId + "]: " + rest1;
    assert ReportLine(u2) == "[" + u2.unitId + "]: " + rest2;
    Text.SplitAtSeparator("[", "]: ", u1.unitId, rest1, u2.unitId, rest2);
  }

  /** The lines the diagnostic loop prints for `units`, in loop order:
      one per unit whose health code is not 0. */
  function ReportLines(units: seq<UnitHealthResponseFields>): (lines: seq<string>)
    ensures |lines| <= |units|
  {
    if units == [] then []
    else
      var last := units[|units| - 1];
      ReportLines(units[..|units| - 1]) + (if IsHealthy(last) then [] else [ReportLine(last)])
  }

  /** The unhealthy units of `units`, in their original order. */
  function Unhealthy(units: seq<UnitHealthResponseFields>): (bad: seq<UnitHealthResponseFields>)
    ensures |bad| <= |units|
    ensures forall k :: 0 <= k < |bad| ==> !IsHealthy(bad[k]) && bad[k] in units
    ensures forall i :: 0 <= i < |units| && !IsHealthy(units[i]) ==> units[i] in bad
    ensures bad == [] <==> AllHealthy(units)
  {
    if units == [] then []
    else if IsHealthy(units[0]) then Unhealthy(units[1..])
    else [units[0]] + Unhealthy(units[1..])
  }

  lemma {:induction false} UnhealthySnoc(units: seq<UnitHealthResponseFields>, u: UnitHealthResponseFields)
    ensures Unhealthy(units + [u]) == Unhealthy(units) + (if IsHealthy(u) then [] else [u])
  {
    if units != [] {
      assert (units + [u])[1..] == units[1..] + [u];
      UnhealthySnoc(units[1..], u);
    }
  }

  /** The printed lines are exactly the report lines of the unhealthy units,
      in the order the units were listed: one line per unhealthy unit and
      nothing for a healthy one. */
  lemma {:induction false} ReportLinesAreUnhealthyUnits(units: seq<UnitHealthResponseFields>)
    ensures |ReportLines(units)| == |Unhealthy(units)|
    ensures forall k :: 0 <= k < |ReportLines(units)| ==> ReportLines(units)[k] == ReportLine(Unhealthy(units)[k])
  {
    if units != [] {
      var init, last := units[..|units| - 1], units[|units| - 1];
      assert units == init + [last];
      ReportLinesAreUnhealthyUnits(init);
      UnhealthySnoc(init, last);
    }
  }

  /** Nothing is printed exactly when every unit is healthy. */
  lemma {:induction false} NoLinesIffAllHealthy(units: seq<UnitHealthResponseFields>)
    ensures ReportLines(units) == [] <==> AllHealthy(units)
  {
    ReportLinesAreUnhealthyUnits(units);
  }

  /** `runDiag`: `fetched` is what collecting the local unit properties
      produced. Returns the lines printed, in order, and the exit code. */
  method RunDiag(fetched: Result<UnitsHealthResponse, string>) returns (lines: seq<string>, exitCode: int)
    ensures exitCode == 0 || exitCode == 1
    ensures fetched.Err? ==> exitCode == 1 && lines == []
    ensures fetched.Ok? ==> lines == ReportLines(fetched.value.units)
    ensures exitCode == 0 <==> fetched.Ok? && AllHealthy(fetched.value.units)
  {
    lines, exitCode := [], 0;
    if fetched.Err? {
      return [], 1;
    }
    var units := fetched.value.units;
    for i := 0 to |units|
      invariant lines == ReportLines(units[..i])
      invariant exitCode == (if AllHealthy(units[..i]) then 0 else 1)
    {
      assert units[..i + 1] == units[..i] + [units[i]];
      assert units[..i + 1][..i] == units[..i];
      if units[i].unitHealth != 0 {
        lines := lines + [ReportLine(units[i])];
        exitCode := 1;
      }
    }
    assert units[..|units|] == units;
  }
}
