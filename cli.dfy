/**
  The command line: `validate_region`, `get_active_regions` and the region
  loop of `main`. The `describe_regions` call made from us-east-1 is modelled
  by the one response it gives (both functions make that call, and a run
  makes at most one of them), and what each region's clients answer by a
  function from region name to `RegionEnv`.
 */
module Cli {
  import opened Quotas
  import opened Catalog
  import opened Checker

  /** The parsed `--region` and `--instance-type` options, each absent or a string. */
  datatype Args = Args(region: Option<string>, instanceType: Option<string>)

  /** The response of `describe_regions`, or the exception it raised. */
  datatype RegionsResponse =
    | RegionList(names: seq<string>)
    | RegionsFailed(message: string)

  const DefaultRegion: string := "us-east-1"

  /** `get_active_regions`: every region named in the response, or us-east-1 alone when the call fails. */
  function ActiveRegions(response: RegionsResponse): (regions: seq<string>)
    ensures response.RegionList? ==> regions == response.names
    ensures response.RegionsFailed? ==> regions == [DefaultRegion]
  {
    match response
    case RegionList(names) => names
    case RegionsFailed(_) => [DefaultRegion]
  }

  /** `validate_region`: the region is named in the response; a failed call validates nothing. */
  predicate ValidateRegion(region: string, response: RegionsResponse)
  {
    response.RegionList? && region in response.names
  }

  /**
    A valid region is always an active one, and the only active region that
    is not valid is the us-east-1 fallback of a failed call.
   */
  lemma ValidRegionsAreActive(region: string, response: RegionsResponse)
    ensures ValidateRegion(region, response) ==> region in ActiveRegions(response)
    ensures region in ActiveRegions(response) && !ValidateRegion(region, response)
            ==> response.RegionsFailed? && region == DefaultRegion
  {
  }

  /** What a run of `main` ends in: the invalid-region message, or the rows written to the CSV file. */
  datatype RunResult = InvalidRegion(region: string) | CsvWritten(rows: seq<Record>)

  /**
    The rows one region adds to the CSV data: all of its checker's rows when
    `generate_report` returns, none when it raises.
   */
  function RegionRows(region: string, instanceType: Option<string>, env: RegionEnv): seq<Record>
  {
    var r := RegionReport(region, instanceType, env);
    if r.completed then r.rows else []
  }

  /** The CSV data gathered over `regions`, in order. */
  function AllRows(regions: seq<string>, instanceType: Option<string>, world: string -> RegionEnv): seq<Record>
    decreases |regions|
  {
    if regions == [] then []
    else
      var last := regions[|regions| - 1];
      AllRows(regions[..|regions| - 1], instanceType, world) + RegionRows(last, instanceType, world(last))
  }

  /** `main` as a function of its arguments, the region discovery response and the regions' clients. */
  function Checked(args: Args, discovery: RegionsResponse, world: string -> RegionEnv): RunResult
  {
    if Given(args.region) then
      var region := args.region.value;
      if !ValidateRegion(region, discovery) then InvalidRegion(region)
      else CsvWritten(RegionRows(region, args.instanceType, world(region)))
    else CsvWritten(AllRows(ActiveRegions(discovery), args.instanceType, world))
  }

  /** A run stops before checking anything exactly when a region is given and is not valid. */
  lemma InvalidRegionStops(args: Args, discovery: RegionsResponse, world: string -> RegionEnv)
    ensures Checked(args, discovery, world).InvalidRegion?
            <==> Given(args.region) && !ValidateRegion(args.region.value, discovery)
    ensures Checked(args, discovery, world).InvalidRegion? ==>
              Checked(args, discovery, world).region == args.region.value
  {
  }

  /** A region's rows all belong to it, and there are some only if its report completed. */
  lemma RegionRowsBelong(region: string, instanceType: Option<string>, env: RegionEnv)
    ensures var rows := RegionRows(region, instanceType, env);
            && (rows != [] ==> RegionReport(region, instanceType, env).completed)
            && (forall i :: 0 <= i < |rows| ==> rows[i].region == region)
  {
    RegionReportRows(region, instanceType, env);
  }

  /**
    Every row gathered over the regions belongs to one of them, and to one
    whose report completed: a region that raised leaves no partial rows.
   */
  lemma {:induction false} AllRowsFromCompletedRegions(regions: seq<string>, instanceType: Option<string>,
                                                      world: string -> RegionEnv)
    ensures var rows := AllRows(regions, instanceType, world);
            forall i :: 0 <= i < |rows| ==>
              rows[i].region in regions
              && RegionReport(rows[i].region, instanceType, world(rows[i].region)).completed
    decreases |regions|
  {
    if regions != [] {
      var init, last := regions[..|regions| - 1], regions[|regions| - 1];
      AllRowsFromCompletedRegions(init, instanceType, world);
      RegionRowsBelong(last, instanceType, world(last));
      var before, added := AllRows(init, instanceType, world), RegionRows(last, instanceType, world(last));
      var rows := AllRows(regions, instanceType, world);
      assert rows == before + added;
      assert var r := AllRows(init, instanceType, world);
             forall j :: 0 <= j < |r| ==> r[j].region in init
                                          && RegionReport(r[j].region, instanceType, world(r[j].region)).completed;
      forall i | 0 <= i < |rows|
        ensures rows[i].region in regions
        ensures RegionReport(rows[i].region, instanceType, world(rows[i].region)).completed
      {
        if i < |before| {
          assert rows[i] == before[i];
          var k :| 0 <= k < |init| && init[k] == rows[i].region;
          assert regions[k] == init[k];
        } else {
          assert rows[i] == added[i - |before|];
        }
      }
    }
  }

  /**
    Every row a run writes belongs to a region whose report completed: the
    given region, or one of the active regions when none is given.
   */
  lemma CheckedRowsFromCompletedRegions(args: Args, discovery: RegionsResponse, world: string -> RegionEnv)
    ensures var result := Checked(args, discovery, world);
      result.CsvWritten? ==>
        forall i :: 0 <= i < |result.rows| ==>
          var region := result.rows[i].region;
          && RegionReport(region, args.instanceType, world(region)).completed
          && (if Given(args.region) then region == args.region.value else region in ActiveRegions(discovery))
  {
    if Given(args.region) {
      RegionRowsBelong(args.region.value, args.instanceType, world(args.region.value));
    } else {
      var regions := ActiveRegions(discovery);
      AllRowsFromCompletedRegions(regions, args.instanceType, world);
      assert var r := AllRows(regions, args.instanceType, world);
             forall j :: 0 <= j < |r| ==> r[j].region in regions
                                          && RegionReport(r[j].region, args.instanceType, world(r[j].region)).completed;
    }
  }

  /**
    `main`: validate a given region and stop on an invalid one; otherwise
    check the given region, or every active region in turn, keeping a
    region's rows only if its report did not raise.
   */
  method CheckRegions(args: Args, discovery: RegionsResponse, world: string -> RegionEnv)
    returns (result: RunResult)
    ensures result == Checked(args, discovery, world)
  {
    if args.region.Some? && args.region.value != "" {
      var region := args.region.value;
      if !ValidateRegion(region, discovery) {
        return InvalidRegion(region);
      }
      var rows := CheckRegion(region, args.instanceType, world(region));
      return CsvWritten(rows);
    }
    var regions := ActiveRegions(discovery);
    var all: seq<Record> := [];
    for i := 0 to |regions|
      invariant all == AllRows(regions[..i], args.instanceType, world)
    {
      var rows := CheckRegion(regions[i], args.instanceType, world(regions[i]));
      assert regions[..i + 1][..i] == regions[..i];
      all := all + rows;
    }
    assert regions[..|regions|] == regions;
    return CsvWritten(all);
  }

  /**
    The `try` block of `main` for one region: a fresh checker generates its
    report, and its rows are kept unless the report raised.
   */
  method CheckRegion(region: string, instanceType: Option<string>, env: RegionEnv) returns (rows: seq<Record>)
    ensures rows == RegionRows(region, instanceType, env)
  {
    var checker := new CapacityChecker(region, env);
    var completed := checker.GenerateReport(instanceType);
    assert [] + ListReservations(region, env.reservations).records == ListReservations(region, env.reservations).records;
    rows := if completed then checker.csvData else [];
  }
}
