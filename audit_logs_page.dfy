// pages/admin/AdminAuditLogsPage.tsx: the run label
// `run-${String(log.id).padStart(3, '0')}`, the download's file name and the
// status badge.

module AuditLogsPage {
  import opened Common
  import opened Database
  import opened EngineScoring
  import opened AdminRoutes

  const RunPrefix := "run-"

  /** `String(id).padStart(3, '0')` */
  function RunDigits(id: nat): (r: string)
    ensures AllDigits(r)
    ensures |r| == if |NatToString(id)| >= 3 then |NatToString(id)| else 3
  {
    PadStart(NatToString(id), 3, '0')
  }

  /** The label shown in the Run ID column (:66). */
  function RunLabel(id: nat): (r: string)
    ensures StartsWith(r, RunPrefix) && r[|RunPrefix|..] == RunDigits(id)
  {
    RunPrefix + RunDigits(id)
  }

  /** The file name of a downloaded log (:44). */
  function LogFileName(id: nat): (r: string)
    ensures r == RunLabel(id) + "-log.txt"
  {
    RunPrefix + PadStart(NatToString(id), 3, '0') + "-log.txt"
  }

  /** Ids of three digits or more are not padded. */
  lemma {:induction false} ThreeDigits(id: nat)
    requires id >= 100
    ensures |NatToString(id)| >= 3
    ensures RunDigits(id) == NatToString(id)
  {
    assert NatToString(id) == NatToString(id / 10) + [DigitChar(id % 10)];
    assert NatToString(id / 10) == NatToString(id / 100) + [DigitChar(id / 10 % 10)];
  }

  /** `s` without its leading zeros. */
  function StripZeros(s: string): (r: string)
    ensures |r| <= |s| && r == s[|s| - |r|..]
    ensures r == [] || r[0] != '0'
    decreases |s|
  {
    if s != [] && s[0] == '0' then StripZeros(s[1..]) else s
  }

  lemma {:induction false} StripPadding(k: nat, s: string)
    requires s != [] && s[0] != '0'
    ensures StripZeros(Repeat('0', k) + s) == s
    decreases k
  {
    if k > 0 {
      assert (Repeat('0', k) + s)[1..] == Repeat('0', k - 1) + s;
      StripPadding(k - 1, s);
    }
  }

  /** Reading an id back from a label: the prefix, then digits whose value
      is the id. */
  function ParseRunLabel(text: string): Option<nat> {
    if StartsWith(text, RunPrefix) && AllDigits(text[|RunPrefix|..]) then
      var digits := StripZeros(text[|RunPrefix|..]);
      Some(DigitsValue(digits))
    else None
  }

  /** Stripping "run-" and the leading zeros gives back the id. */
  lemma LabelRoundTrip(id: nat)
    requires id >= 1
    ensures ParseRunLabel(RunLabel(id)) == Some(id)
  {
    var s := NatToString(id);
    NatToStringNoLeadingZero(id);
    NatToStringRoundTrip(id);
    var digits := RunDigits(id);
    if |s| < 3 {
      assert digits == Repeat('0', 3 - |s|) + s;
      StripPadding(3 - |s|, s);
    } else {
      assert digits == s;
      StripPadding(0, s);
      assert Repeat('0', 0) + s == s;
    }
    assert RunLabel(id)[|RunPrefix|..] == digits;
    assert StripZeros(digits) == s;
  }

  datatype Badge = Green | Red | Yellow

  /** The status badge (:70). */
  function RunBadge(status: string): (r: Badge)
    ensures r == Green <==> status == "Completed"
    ensures r == Red <==> status == "Failed"
    ensures r == Yellow <==> status != "Completed" && status != "Failed"
  {
    if status == "Completed" then Green else if status == "Failed" then Red else Yellow
  }

  /** The engine never writes "Failed", so the row a run leaves is green
      when it completed and yellow otherwise, even when it threw. */
  lemma RunBadgeNeverRed(allocations: seq<AllocationRow>, auditLogs: seq<AuditRow>, runId: int,
                         profiles: seq<ProfileRow>, prefs: seq<PrefRow>, internships: seq<InternshipRow>,
                         body: EngineBody, admin: string, ai: nat -> AiReply, fault: Fault)
    requires forall i :: 0 <= i < |auditLogs| ==> auditLogs[i].id < runId
    requires !Fails(fault, AuditInsert)
    ensures var r := EngineRun(allocations, auditLogs, runId, profiles, prefs, internships, body, admin, ai, fault);
      |r.auditLogs| == |auditLogs| + 1 &&
      RunBadge(r.auditLogs[|auditLogs|].status) ==
        if Completes(fault, profiles, prefs, internships, body, ai) then Green else Yellow
  {
    RunAuditRow(allocations, auditLogs, runId, profiles, prefs, internships, body, admin, ai, fault);
  }
}
