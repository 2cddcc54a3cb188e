/**
  `CapacityChecker`: one region's checker. It owns the rows collected for
  the CSV export (`csv_data`) and appends to them as it looks quotas up.

  Its two clients are modelled by what they answer: the Service Quotas
  client by the answers it still has to give, one per `get_service_quota`
  attempt, and the EC2 client by its `describe_capacity_reservations`
  response. The 2-second sleeps before a retry are counted.
 */
module Checker {
  import opened Quotas
  import opened Catalog

  /** What a region's clients answer when a checker is created for it. */
  datatype RegionEnv = RegionEnv(reservations: ReservationsResponse, quotaAnswers: seq<Outcome>)

  /** `generate_report` on a fresh checker: where it ends, rows included. */
  function RegionReport(region: string, instanceType: Option<string>, env: RegionEnv): Progress
  {
    Run(region, Start(ListReservations(region, env.reservations).records, env.quotaAnswers, 0),
        ReportRequests(instanceType))
  }

  /** `RegionReportRows` for any list of lookups run after rows of the region. */
  lemma RunAfterRows(region: string, records: seq<Record>, answers: seq<Outcome>, reqs: seq<Request>)
    requires forall i :: 0 <= i < |records| ==> records[i].region == region
    ensures var r := Run(region, Start(records, answers, 0), reqs);
      && |records| <= |r.rows| && r.rows[..|records|] == records
      && (r.completed <==> Answers(answers) >= |reqs|)
      && (r.completed ==> |r.rows| == |records| + |reqs|)
      && (r.completed ==> forall i :: 0 <= i < |reqs| ==> r.rows[|records| + i].quotaCode == reqs[i].code)
      && (forall i :: 0 <= i < |r.rows| ==> r.rows[i].region == region)
  {
    RunRows(region, Start(records, answers, 0), reqs);
    var r := Run(region, Start(records, answers, 0), reqs);
    if r.completed {
      forall i | 0 <= i < |reqs| ensures r.rows[|records| + i].quotaCode == reqs[i].code {
        var j := |records| + i;
        assert |records| <= j < |r.rows| && j - |records| == i;
      }
    }
    forall i | 0 <= i < |r.rows| ensures r.rows[i].region == region {
      if i < |records| {
        assert r.rows[i] == r.rows[..|records|][i];
      }
    }
  }

  /**
    A report completes exactly when the quota service eventually answers
    every lookup; it then holds the reservation rows followed by six rows
    (an instance type was given) or four, in lookup order. Every row
    belongs to the report's region.
   */
  lemma RegionReportRows(region: string, instanceType: Option<string>, env: RegionEnv)
    ensures var r, l := RegionReport(region, instanceType, env), ListReservations(region, env.reservations);
      var reqs := ReportRequests(instanceType);
      && |reqs| == (if Given(instanceType) then 6 else 4)
      && |l.records| <= |r.rows| && r.rows[..|l.records|] == l.records
      && (r.completed <==> Answers(env.quotaAnswers) >= |reqs|)
      && (r.completed ==> |r.rows| == |l.records| + |reqs|)
      && (r.completed ==> forall i :: 0 <= i < |reqs| ==> r.rows[|l.records| + i].quotaCode == reqs[i].code)
      && (forall i :: 0 <= i < |r.rows| ==> r.rows[i].region == region)
  {
    ReportCodes(instanceType);
    ListingFollowsResponse(region, env.reservations);
    RunAfterRows(region, ListReservations(region, env.reservations).records, env.quotaAnswers, ReportRequests(instanceType));
  }

  class CapacityChecker {
    const region: string
    /** What `self.ec2.describe_capacity_reservations()` answers. */
    const reservationsResponse: ReservationsResponse
    /** What `self.service_quotas.get_service_quota` still has to answer, attempt by attempt. */
    var quotaAnswers: seq<Outcome>
    /** `self.csv_data`. */
    var csvData: seq<Record>
    /** The 2-second sleeps taken so far. */
    var sleeps: nat

    constructor (region: string, env: RegionEnv)
      ensures this.region == region && reservationsResponse == env.reservations
      ensures quotaAnswers == env.quotaAnswers && csvData == [] && sleeps == 0
    {
      this.region := region;
      reservationsResponse := env.reservations;
      quotaAnswers := env.quotaAnswers;
      csvData := [];
      sleeps := 0;
    }

    /**
      `get_quota`: the recursive retry is a loop. A throttled attempt sleeps
      and appends nothing; the first other answer appends exactly one row. If
      the answers run out while still throttled, the model treats the call as
      raising (None), having appended nothing.
     */
    method GetQuota(service: string, code: string, defaultName: string) returns (info: Option<QuotaInfo>)
      modifies this`quotaAnswers, this`csvData, this`sleeps
      ensures var l := LookupQuota(region, Request(service, code, defaultName), old(quotaAnswers));
        && sleeps == old(sleeps) + l.sleeps
        && (l.Answered? ==> info == Some(l.info) && csvData == old(csvData) + [l.record] && quotaAnswers == l.rest)
        && (l.Throttled? ==> info.None? && csvData == old(csvData) && quotaAnswers == [])
    {
      var req := Request(service, code, defaultName);
      while true
        invariant csvData == old(csvData) && sleeps >= old(sleeps)
        invariant LookupQuota(region, req, old(quotaAnswers))
                  == LookupQuota(region, req, quotaAnswers).(sleeps := LookupQuota(region, req, quotaAnswers).sleeps + sleeps - old(sleeps))
        decreases |quotaAnswers|
      {
        if quotaAnswers == [] {
          return None;
        }
        var outcome := quotaAnswers[0];
        quotaAnswers := quotaAnswers[1..];
        match outcome {
          case Success(name, value, unit) =>
            var quotaInfo := QuotaInfo(name, Number(value), unit);
            csvData := csvData + [Record(region, service, quotaInfo.name, code, quotaInfo.value, quotaInfo.unit)];
            return Some(quotaInfo);
          case Error(message) =>
            if Classify(message) == RateLimited {
              sleeps := sleeps + 1;
            } else {
              // NoSuchResource and any other error differ only in the line printed.
              csvData := csvData + [Record(region, service, defaultName, code, Label(NotAvailable), "")];
              return Some(QuotaInfo(defaultName, Label(NotAvailable), ""));
            }
        }
      }
    }

    /**
      `get_capacity_reservations`: one dict and one row per entry, in response
      order. A failed call returns [] and appends nothing; an entry lacking a
      key returns [] and keeps the rows already appended.
     */
    method GetCapacityReservations() returns (reservations: seq<Reservation>)
      modifies this`csvData
      ensures var l := ListReservations(region, reservationsResponse);
              reservations == l.reservations && csvData == old(csvData) + l.records
    {
      if reservationsResponse.DescribeFailed? {
        return [];
      }
      var entries := reservationsResponse.entries;
      reservations := [];
      var i := 0;
      while i < |entries|
        invariant i <= |entries| && |reservations| == i
        invariant forall k :: 0 <= k < i ==> Project(entries[k]) == Some(reservations[k])
        invariant csvData == old(csvData) + ReservationRecords(region, reservations)
      {
        var reservation := Project(entries[i]);
        if reservation.None? {
          // KeyError while building the dict: the rows appended so far stay.
          ProjectedPrefixUnique(entries, reservations);
          return [];
        }
        ReservationRecordsSnoc(region, reservations, reservation.value);
        reservations := reservations + [reservation.value];
        csvData := csvData + [ReservationRecord(region, reservation.value)];
        i := i + 1;
      }
      ProjectedPrefixUnique(entries, reservations);
    }

    /** `get_compute_quotas`: the family's on-demand quota, then spot requests. */
    method GetComputeQuotas(instanceType: string) returns (quotas: Option<seq<QuotaInfo>>)
      modifies this`quotaAnswers, this`csvData, this`sleeps
      ensures var q := Run(region, Start(old(csvData), old(quotaAnswers), old(sleeps)), ComputeRequests(instanceType));
        && quotas == (if q.completed then Some(q.infos) else None)
        && csvData == q.rows && quotaAnswers == q.answers && sleeps == q.sleeps
    {
      // Run(region, p, rest) is what the whole call ends in; p.infos are the dicts so far.
      ghost var p, rest := Start(csvData, quotaAnswers, sleeps), ComputeRequests(instanceType);

      var computeQuotas: seq<QuotaInfo> := [];

      var code := FamilyQuotaCode(instanceType);
      var ec2 := GetQuota("ec2", code, "Unknown");
      RunFirst(region, p, rest);
      p, rest := Step(region, p, rest[0]), rest[1..];
      if ec2.None? {
        RunStopped(region, p, rest);
        return None;
      }
      computeQuotas := computeQuotas + [ec2.value];
      var spot := GetQuota("ec2", StandardCode, "Spot Instance Requests");
      RunFirst(region, p, rest);
      p, rest := Step(region, p, rest[0]), rest[1..];
      if spot.None? {
        RunStopped(region, p, rest);
        return None;
      }
      computeQuotas := computeQuotas + [spot.value];
      assert rest == [];
      return Some(computeQuotas);
    }

    /** `get_gpu_quotas`: the G, P, Inf and Trn quotas, in that order. */
    method GetGpuQuotas() returns (quotas: Option<seq<QuotaInfo>>)
      modifies this`quotaAnswers, this`csvData, this`sleeps
      ensures var q := Run(region, Start(old(csvData), old(quotaAnswers), old(sleeps)), GpuRequests);
        && quotas == (if q.completed then Some(q.infos) else None)
        && csvData == q.rows && quotaAnswers == q.answers && sleeps == q.sleeps
    {
      // Run(region, p, rest) is what the whole call ends in; p.infos are the dicts so far.
      ghost var p, rest := Start(csvData, quotaAnswers, sleeps), GpuRequests;
      var gpuQuotas: seq<QuotaInfo> := [];

      var g4dn := GetQuota("ec2", "L-DB2E81BA", "G and VT Spot Instance Requests");
      RunFirst(region, p, rest);
      p, rest := Step(region, p, rest[0]), rest[1..];
      if g4dn.None? {
        RunStopped(region, p, rest);
        return None;
      }
      gpuQuotas := gpuQuotas + [g4dn.value];
      var p3 := GetQuota("ec2", "L-417A185B", "P Spot Instance Requests");
      RunFirst(region, p, rest);
      p, rest := Step(region, p, rest[0]), rest[1..];
      if p3.None? {
        RunStopped(region, p, rest);
        return None;
      }
      gpuQuotas := gpuQuotas + [p3.value];
      var inf1 := GetQuota("ec2", "L-1945791B", "Inf Spot Instance Requests");
      RunFirst(region, p, rest);
      p, rest := Step(region, p, rest[0]), rest[1..];
      if inf1.None? {
        RunStopped(region, p, rest);
        return None;
      }
      gpuQuotas := gpuQuotas + [inf1.value];
      var trn1 := GetQuota("ec2", "L-2C3B7624", "Trn Spot Instance Requests");
      RunFirst(region, p, rest);
      p, rest := Step(region, p, rest[0]), rest[1..];
      if trn1.None? {
        RunStopped(region, p, rest);
        return None;
      }
      gpuQuotas := gpuQuotas + [trn1.value];
      assert rest == [];
      return Some(gpuQuotas);
    }

    /**
      `generate_report`: the reservations, then the compute quotas when an
      instance type is given, then the GPU quotas; false when a lookup
      raised, which ends the report early.
     */
    method GenerateReport(instanceType: Option<string>) returns (completed: bool)
      modifies this`quotaAnswers, this`csvData, this`sleeps
      ensures var q := Run(region, Start(old(csvData) + ListReservations(region, reservationsResponse).records,
                                         old(quotaAnswers), old(sleeps)),
                           ReportRequests(instanceType));
        && completed == q.completed
        && csvData == q.rows && quotaAnswers == q.answers && sleeps == q.sleeps
    {
      var reservations := GetCapacityReservations();
      ghost var p := Start(csvData, quotaAnswers, sleeps);
      ghost var compute := if Given(instanceType) then ComputeRequests(instanceType.value) else [];
      RunAppend(region, p, compute, GpuRequests);
      assert ReportRequests(instanceType) == compute + GpuRequests;
      ghost var mid := Run(region, p, compute);
      if instanceType.Some? && instanceType.value != "" {
        var computeQuotas := GetComputeQuotas(instanceType.value);
        if computeQuotas.None? {
          RunStopped(region, mid, GpuRequests);
          return false;
        }
      }
      assert mid.completed && csvData == mid.rows && quotaAnswers == mid.answers && sleeps == mid.sleeps;
      // The GPU lookups start from an empty list of dicts; the report's do not.
      RunIgnoresInfos(region, mid, [], GpuRequests);
      var gpuQuotas := GetGpuQuotas();
      completed := gpuQuotas.Some?;
    }
  }
}
