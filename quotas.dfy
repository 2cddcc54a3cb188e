/**
  The values the quota checker handles and the pure meaning of its two
  provider calls: one quota lookup with retry on throttling (`get_quota`)
  and the capacity-reservation listing (`get_capacity_reservations`).

  The Service Quotas client is modelled as the finite stream of answers it
  gives, one per attempt; the EC2 reservation listing as the one response it
  gives.
 */
module Quotas {
  import opened Strings

  datatype Option<+T> = None | Some(value: T)

  /** What one `get_service_quota` attempt produced: the quota, or an exception with its `str(e)`. */
  datatype Outcome =
    | Success(quotaName: string, value: real, unit: string)
    | Error(message: string)

  /**
    A `Current_Limit` cell: the provider's number, a text such as
    'Not available', or a reservation's two instance counts. The row holds
    the counts themselves; `CountsText` is the text they stand for.
   */
  datatype Limit = Number(amount: real) | Label(text: string) | Counts(total: int, available: int)

  /** The f-string `f"Total: {total}, Available: {available}"`. */
  function CountsText(total: int, available: int): string
  {
    "Total: " + IntToString(total) + ", Available: " + IntToString(available)
  }

  /** The counts text can be read back: different counts never print alike. */
  lemma CountsTextInjective(a: int, b: int, c: int, d: int)
    requires CountsText(a, b) == CountsText(c, d)
    ensures a == c && b == d
  {
    var x, y, rest := IntToString(a), IntToString(c), ", Available: ";
    var t, w := rest + IntToString(b), rest + IntToString(d);
    assert CountsText(a, b) == "Total: " + (x + t);
    assert CountsText(c, d) == "Total: " + (y + w);
    assert x + t == CountsText(a, b)[7..] == y + w;
    SplitAtFirst(x, t, y, w, ',');
    IntToStringInjective(a, c);
    assert IntToString(b) == t[|rest|..] == w[|rest|..] == IntToString(d);
    IntToStringInjective(b, d);
  }

  /** One CSV row: Region, Service, Quota_Name, Quota_Code, Current_Limit, Unit. */
  datatype Record = Record(
    region: string,
    service: string,
    quotaName: string,
    quotaCode: string,
    currentLimit: Limit,
    unit: string)

  /** The dict `get_quota` returns for console display. */
  datatype QuotaInfo = QuotaInfo(name: string, value: Limit, unit: string)

  /** The arguments of one `get_quota` call. */
  datatype Request = Request(service: string, code: string, defaultName: string)

  const NotAvailable: string := "Not available"
  const RateLimitMarker: string := "TooManyRequestsException"
  const NotFoundMarker: string := "NoSuchResourceException"

  /** The three ways `get_quota` reads an exception message. */
  datatype Failure = RateLimited | NoSuchResource | OtherError

  /** Classifies an error message by substring; throttling is tested first. */
  function Classify(message: string): (kind: Failure)
    ensures kind == RateLimited <==> IsSubstring(RateLimitMarker, message)
    ensures kind == NoSuchResource <==>
              !IsSubstring(RateLimitMarker, message) && IsSubstring(NotFoundMarker, message)
  {
    if Contains(RateLimitMarker, message) then RateLimited
    else if Contains(NotFoundMarker, message) then NoSuchResource
    else OtherError
  }

  predicate IsRateLimited(o: Outcome)
  {
    o.Error? && Classify(o.message) == RateLimited
  }

  /** The dict returned for an attempt that was not throttled. */
  function InfoOf(req: Request, o: Outcome): QuotaInfo
  {
    match o
    case Success(name, value, unit) => QuotaInfo(name, Number(value), unit)
    case Error(_) => QuotaInfo(req.defaultName, Label(NotAvailable), "")
  }

  /** The row appended for an attempt that was not throttled. */
  function RecordOf(region: string, req: Request, o: Outcome): Record
  {
    match o
    case Success(name, value, unit) => Record(region, req.service, name, req.code, Number(value), unit)
    case Error(_) => Record(region, req.service, req.defaultName, req.code, Label(NotAvailable), "")
  }

  /** The returned dict and the appended row carry the same name, value and unit. */
  lemma RecordMirrorsInfo(region: string, req: Request, o: Outcome)
    ensures var rec, info := RecordOf(region, req, o), InfoOf(req, o);
            rec.quotaName == info.name && rec.currentLimit == info.value && rec.unit == info.unit
            && rec.region == region && rec.service == req.service && rec.quotaCode == req.code
  {
  }

  /**
    The end of one `get_quota` call: answered (the row, the dict, the answers
    still unread and the number of 2-second sleeps taken), or still throttled
    when the answers ran out. The model reads the second case as the lookup
    raising: it stands for any exception that escapes `get_quota` and ends
    the report.
   */
  datatype Lookup =
    | Answered(record: Record, info: QuotaInfo, rest: seq<Outcome>, sleeps: nat)
    | Throttled(sleeps: nat)

  function Delayed(l: Lookup): Lookup
  {
    l.(sleeps := l.sleeps + 1)
  }

  /** `get_quota` as the program writes it: a throttled attempt sleeps and calls itself again. */
  function LookupQuota(region: string, req: Request, outs: seq<Outcome>): Lookup
    decreases |outs|
  {
    if outs == [] then Throttled(0)
    else if IsRateLimited(outs[0]) then Delayed(LookupQuota(region, req, outs[1..]))
    else Answered(RecordOf(region, req, outs[0]), InfoOf(req, outs[0]), outs[1..], 0)
  }

  /**
    The sleeps are the throttled attempts before the first other answer, and
    the one row comes from that answer; throttling is never recorded.
   */
  lemma {:induction false} LookupTakesFirstAnswer(region: string, req: Request, outs: seq<Outcome>, k: nat)
    requires k < |outs| && !IsRateLimited(outs[k])
    requires forall j :: 0 <= j < k ==> IsRateLimited(outs[j])
    ensures LookupQuota(region, req, outs)
            == Answered(RecordOf(region, req, outs[k]), InfoOf(req, outs[k]), outs[k + 1..], k)
  {
    if k > 0 {
      assert IsRateLimited(outs[0]);
      LookupTakesFirstAnswer(region, req, outs[1..], k - 1);
      assert outs[1..][k..] == outs[k + 1..];
    }
  }

  /** When every answer is throttling, the lookup sleeps once per answer and records nothing. */
  lemma {:induction false} LookupThrottledThroughout(region: string, req: Request, outs: seq<Outcome>)
    requires forall j :: 0 <= j < |outs| ==> IsRateLimited(outs[j])
    ensures LookupQuota(region, req, outs) == Throttled(|outs|)
  {
    if outs != [] {
      LookupThrottledThroughout(region, req, outs[1..]);
    }
  }

  /** How many answers in the stream are not throttling. */
  function Answers(outs: seq<Outcome>): nat
  {
    if outs == [] then 0
    else (if IsRateLimited(outs[0]) then 0 else 1) + Answers(outs[1..])
  }

  /** A lookup is answered exactly when some answer is not throttling, and it uses up exactly one such answer. */
  lemma {:induction false} LookupUsesOneAnswer(region: string, req: Request, outs: seq<Outcome>)
    ensures LookupQuota(region, req, outs).Answered? <==> Answers(outs) > 0
    ensures LookupQuota(region, req, outs).Answered? ==>
              Answers(LookupQuota(region, req, outs).rest) == Answers(outs) - 1
    ensures LookupQuota(region, req, outs).Throttled? ==> LookupQuota(region, req, outs).sleeps == |outs|
    ensures var l := LookupQuota(region, req, outs);
            l.Answered? ==> l.record.region == region && l.record.service == req.service
                            && l.record.quotaCode == req.code
  {
    if outs != [] && IsRateLimited(outs[0]) {
      LookupUsesOneAnswer(region, req, outs[1..]);
    }
  }

  /**
    Where a checker stands during a fixed sequence of `get_quota` calls: the
    CSV rows so far, the dicts returned so far, the answers still unread, the
    sleeps taken, and whether every call so far returned normally (an
    escaping exception ends the sequence).
   */
  datatype Progress = Progress(
    rows: seq<Record>,
    infos: seq<QuotaInfo>,
    answers: seq<Outcome>,
    sleeps: nat,
    completed: bool)

  function Start(rows: seq<Record>, answers: seq<Outcome>, sleeps: nat): Progress
  {
    Progress(rows, [], answers, sleeps, true)
  }

  /** One `get_quota` call made from `p`. */
  function Step(region: string, p: Progress, req: Request): Progress
  {
    match LookupQuota(region, req, p.answers)
    case Throttled(s) => Progress(p.rows, p.infos, [], p.sleeps + s, false)
    case Answered(rec, info, rest, s) => Progress(p.rows + [rec], p.infos + [info], rest, p.sleeps + s, true)
  }

  /** The calls `reqs` made in order from `p`, stopping at the first that does not return. */
  function Run(region: string, p: Progress, reqs: seq<Request>): Progress
    decreases |reqs|
  {
    if reqs == [] || !p.completed then p else Run(region, Step(region, p, reqs[0]), reqs[1..])
  }

  /** Running a list is one step on its first request, then running the rest. */
  lemma RunFirst(region: string, p: Progress, reqs: seq<Request>)
    requires reqs != [] && p.completed
    ensures Run(region, p, reqs) == Run(region, Step(region, p, reqs[0]), reqs[1..])
  {
  }

  /** Once a lookup has raised, nothing else runs. */
  lemma RunStopped(region: string, p: Progress, reqs: seq<Request>)
    requires !p.completed
    ensures Run(region, p, reqs) == p
  {
  }

  /** The dicts collected so far play no part in what the later lookups do. */
  lemma {:induction false} RunIgnoresInfos(region: string, p: Progress, infos: seq<QuotaInfo>, reqs: seq<Request>)
    ensures var a, b := Run(region, p, reqs), Run(region, p.(infos := infos), reqs);
            a.rows == b.rows && a.answers == b.answers && a.sleeps == b.sleeps && a.completed == b.completed
    decreases |reqs|
  {
    if reqs != [] && p.completed {
      RunIgnoresInfos(region, Step(region, p, reqs[0]), Step(region, p.(infos := infos), reqs[0]).infos, reqs[1..]);
    }
  }

  /** Making two request lists one after the other is making their concatenation. */
  lemma {:induction false} RunAppend(region: string, p: Progress, a: seq<Request>, b: seq<Request>)
    ensures Run(region, p, a + b) == Run(region, Run(region, p, a), b)
    decreases |a|
  {
    if a == [] {
      assert a + b == b;
    } else if p.completed {
      assert (a + b)[0] == a[0];
      assert (a + b)[1..] == a[1..] + b;
      RunAppend(region, Step(region, p, a[0]), a[1..], b);
    } else {
      if b != [] {
        assert a + b != [];
      }
    }
  }

  /**
    Starting from a completed `p`, the calls `reqs` keep the rows and dicts
    already made and add, in call order, one row and one dict per answered
    call; row i added is the row of request i (same region, service and
    code). The sequence completes exactly when the answers hold one that is
    not throttling for every request; otherwise it stops with a row for each
    such answer and nothing left to read.
   */
  lemma {:induction false} RunRows(region: string, p: Progress, reqs: seq<Request>)
    requires p.completed
    ensures var q := Run(region, p, reqs);
      && |p.rows| <= |q.rows| && q.rows[..|p.rows|] == p.rows
      && |p.infos| <= |q.infos| && q.infos[..|p.infos|] == p.infos
      && |q.rows| - |p.rows| == |q.infos| - |p.infos| <= |reqs|
      && (q.completed <==> Answers(p.answers) >= |reqs|)
      && (q.completed ==> |q.rows| == |p.rows| + |reqs|)
      && (!q.completed ==> |q.rows| == |p.rows| + Answers(p.answers) && q.answers == [])
      && (forall i :: |p.rows| <= i < |q.rows| ==>
            q.rows[i].region == region && q.rows[i].service == reqs[i - |p.rows|].service
            && q.rows[i].quotaCode == reqs[i - |p.rows|].code)
    decreases |reqs|
  {
    if reqs != [] {
      var l := LookupQuota(region, reqs[0], p.answers);
      LookupUsesOneAnswer(region, reqs[0], p.answers);
      if l.Answered? {
        var p1 := Step(region, p, reqs[0]);
        RunRows(region, p1, reqs[1..]);
        var q := Run(region, p1, reqs[1..]);
        assert q.rows[..|p1.rows|] == p1.rows;
        assert q.rows[..|p.rows|] == p1.rows[..|p.rows|] == p.rows;
        assert q.infos[..|p.infos|] == p1.infos[..|p.infos|] == p.infos;
        assert q.rows[|p.rows|] == p1.rows[|p.rows|] == l.record;
        forall i | |p1.rows| <= i < |q.rows|
          ensures q.rows[i].quotaCode == reqs[i - |p.rows|].code
        {
          assert reqs[i - |p.rows|] == reqs[1..][i - |p1.rows|];
        }
      }
    }
  }

  // ---------------------------------------------------------------------------
  // Capacity reservations

  /** One entry of `describe_capacity_reservations`; a key can be missing. */
  datatype RawReservation = RawReservation(
    id: Option<string>,
    instanceType: Option<string>,
    totalCount: Option<int>,
    availableCount: Option<int>,
    state: Option<string>)

  /** The response of `describe_capacity_reservations`, or the exception it raised. */
  datatype ReservationsResponse =
    | Described(entries: seq<RawReservation>)
    | DescribeFailed(message: string)

  /** The dict built for one reservation. */
  datatype Reservation = Reservation(
    id: string,
    instanceType: string,
    instanceCount: int,
    availableCount: int,
    state: string)

  /** The dict for an entry, or None where reading a key raises KeyError. */
  function Project(raw: RawReservation): Option<Reservation>
  {
    if raw.id.Some? && raw.instanceType.Some? && raw.totalCount.Some?
       && raw.availableCount.Some? && raw.state.Some?
    then Some(Reservation(raw.id.value, raw.instanceType.value, raw.totalCount.value,
                          raw.availableCount.value, raw.state.value))
    else None
  }

  /** The entries read before the first one that lacks a key. */
  function ProjectedPrefix(entries: seq<RawReservation>): (p: seq<Reservation>)
    ensures |p| <= |entries|
    ensures forall i :: 0 <= i < |p| ==> Project(entries[i]) == Some(p[i])
    ensures |p| < |entries| ==> Project(entries[|p|]).None?
  {
    if entries == [] then []
    else match Project(entries[0])
      case None => []
      case Some(r) => [r] + ProjectedPrefix(entries[1..])
  }

  /** The prefix is the only run of readable entries that stops at the end or at an unreadable one. */
  lemma {:induction false} ProjectedPrefixUnique(entries: seq<RawReservation>, rs: seq<Reservation>)
    requires |rs| <= |entries|
    requires forall k :: 0 <= k < |rs| ==> Project(entries[k]) == Some(rs[k])
    requires |rs| < |entries| ==> Project(entries[|rs|]).None?
    ensures ProjectedPrefix(entries) == rs
  {
    if rs != [] {
      assert Project(entries[0]) == Some(rs[0]);
      assert forall k :: 0 <= k < |rs| - 1 ==> entries[1..][k] == entries[k + 1] && rs[1..][k] == rs[k + 1];
      ProjectedPrefixUnique(entries[1..], rs[1..]);
    }
  }

  const ReservationService: string := "capacity-reservation"

  /** The row appended for one reservation. */
  function ReservationRecord(region: string, r: Reservation): Record
  {
    Record(region, ReservationService, "Capacity Reservation - " + r.instanceType, r.id,
           Counts(r.instanceCount, r.availableCount),
           r.state)
  }

  /** The rows for reservations `rs`, one each, in order. */
  function ReservationRecords(region: string, rs: seq<Reservation>): (rows: seq<Record>)
    ensures |rows| == |rs|
    ensures forall i :: 0 <= i < |rs| ==> rows[i] == ReservationRecord(region, rs[i])
  {
    if rs == [] then [] else ReservationRecords(region, rs[..|rs| - 1]) + [ReservationRecord(region, rs[|rs| - 1])]
  }

  /** Appending a reservation appends its row. */
  lemma ReservationRecordsSnoc(region: string, rs: seq<Reservation>, r: Reservation)
    ensures ReservationRecords(region, rs + [r]) == ReservationRecords(region, rs) + [ReservationRecord(region, r)]
  {
    assert (rs + [r])[..|rs|] == rs;
  }

  /** What `get_capacity_reservations` returns and the rows it appends. */
  datatype Listing = Listing(reservations: seq<Reservation>, records: seq<Record>)

  function ListReservations(region: string, response: ReservationsResponse): Listing
  {
    match response
    case DescribeFailed(_) => Listing([], [])
    case Described(entries) =>
      var p := ProjectedPrefix(entries);
      Listing(if |p| == |entries| then p else [], ReservationRecords(region, p))
  }

  /**
    A failed listing returns nothing and appends nothing. Otherwise row i
    comes from entry i, in response order, up to the first entry lacking a
    key; the reservations are returned only if no entry lacked one, and then
    there is one row per reservation.
   */
  lemma ListingFollowsResponse(region: string, response: ReservationsResponse)
    ensures var l := ListReservations(region, response);
      && (response.DescribeFailed? ==> l.reservations == [] && l.records == [])
      && (response.Described? ==>
            && |l.records| <= |response.entries|
            && (|l.records| < |response.entries| ==> Project(response.entries[|l.records|]).None? && l.reservations == [])
            && (|l.records| == |response.entries| ==> |l.reservations| == |l.records|)
            && (|l.records| == |response.entries| ==>
                  forall i :: 0 <= i < |l.reservations| ==> Project(response.entries[i]) == Some(l.reservations[i]))
            && forall i :: 0 <= i < |l.records| ==>
                 var raw := response.entries[i];
                 && l.records[i].region == region
                 && l.records[i].service == ReservationService
                 && Some(l.records[i].quotaCode) == raw.id
                 && raw.instanceType.Some?
                 && l.records[i].quotaName == "Capacity Reservation - " + raw.instanceType.value
                 && Some(l.records[i].unit) == raw.state
                 && l.records[i].currentLimit == Counts(raw.totalCount.value, raw.availableCount.value))
  {
  }
}
