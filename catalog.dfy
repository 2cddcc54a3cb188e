/**
  The static part of the checker: which quota codes a report looks up, in
  which order, and how an instance type picks its on-demand quota code.
  Also the display rule for quota names in the console report.
 */
module Catalog {
  import opened Quotas

  /** The code used for an unknown family and for spot requests. */
  const StandardCode: string := "L-34B43A08"

  /** Instance family to the quota code that governs it. */
  const FamilyCodes: map<string, string> := map[
    "g4dn" := "L-DB2E81BA", "g4ad" := "L-DB2E81BA", "g5" := "L-DB2E81BA", "g5g" := "L-DB2E81BA",
    "p3" := "L-417A185B", "p3dn" := "L-417A185B", "p4d" := "L-417A185B", "p4de" := "L-417A185B",
    "p5" := "L-417A185B", "trn1" := "L-2C3B7624", "trn1n" := "L-2C3B7624", "inf1" := "L-DB2E81BA",
    "inf2" := "L-DB2E81BA", "dl1" := "L-6E869C2A",
    "m5" := StandardCode, "c5" := StandardCode, "r5" := "L-0E3CBAB9", "t3" := StandardCode
  ]

  /**
    Python's `instance_type.split('.')[0]`: the text before the first dot, or
    the whole string when it has none.
   */
  function FamilyOf(instanceType: string): (family: string)
    ensures |family| <= |instanceType| && family == instanceType[..|family|]
    ensures '.' !in family
    ensures |family| < |instanceType| ==> instanceType[|family|] == '.'
  {
    if instanceType == [] || instanceType[0] == '.' then []
    else [instanceType[0]] + FamilyOf(instanceType[1..])
  }

  /** A family name followed by a dot and anything else resolves to that family. */
  lemma {:induction false} FamilyBeforeDot(family: string, size: string)
    requires '.' !in family
    ensures FamilyOf(family + "." + size) == family
  {
    var t := family + "." + size;
    if family == [] {
      assert t[0] == '.';
    } else {
      assert family[0] in family;
      assert t[0] == family[0] && t[1..] == family[1..] + "." + size;
      FamilyBeforeDot(family[1..], size);
      assert family == [family[0]] + family[1..];
    }
  }

  /** `quota_codes.get(family, 'L-34B43A08')`. */
  function FamilyQuotaCode(instanceType: string): (code: string)
    ensures FamilyOf(instanceType) in FamilyCodes ==> code == FamilyCodes[FamilyOf(instanceType)]
    ensures FamilyOf(instanceType) !in FamilyCodes ==> code == StandardCode
    ensures code in FamilyCodes.Values
  {
    var family := FamilyOf(instanceType);
    assert FamilyCodes["m5"] == StandardCode;
    if family in FamilyCodes then FamilyCodes[family] else StandardCode
  }

  /** The P-series type of the documentation resolves to the P-series code. */
  lemma FamilyQuotaCodeOfP4d()
    ensures FamilyQuotaCode("p4d.24xlarge") == "L-417A185B"
  {
    assert "p4d.24xlarge" == "p4d" + "." + "24xlarge";
    FamilyBeforeDot("p4d", "24xlarge");
    assert FamilyCodes["p4d"] == "L-417A185B";
  }

  /** The R family has a code of its own. */
  lemma FamilyQuotaCodeOfR5()
    ensures FamilyQuotaCode("r5.large") == "L-0E3CBAB9"
  {
    assert "r5.large" == "r5" + "." + "large";
    FamilyBeforeDot("r5", "large");
  }

  /** An unknown family falls back to the standard code. */
  lemma FamilyQuotaCodeOfUnknown()
    ensures FamilyQuotaCode("z9.metal") == StandardCode
  {
    assert "z9.metal" == "z9" + "." + "metal";
    FamilyBeforeDot("z9", "metal");
  }

  /** `get_compute_quotas`: the family's on-demand code (default name 'Unknown'), then spot. */
  function ComputeRequests(instanceType: string): (reqs: seq<Request>)
  {
    [Request("ec2", FamilyQuotaCode(instanceType), "Unknown"),
     Request("ec2", StandardCode, "Spot Instance Requests")]
  }

  /** `get_gpu_quotas`: four lookups in a fixed order, whatever the instance type. */
  const GpuRequests: seq<Request> := [
    Request("ec2", "L-DB2E81BA", "G and VT Spot Instance Requests"),
    Request("ec2", "L-417A185B", "P Spot Instance Requests"),
    Request("ec2", "L-1945791B", "Inf Spot Instance Requests"),
    Request("ec2", "L-2C3B7624", "Trn Spot Instance Requests")
  ]

  /** Python truthiness of the `instance_type` argument: neither None nor empty. */
  predicate Given(instanceType: Option<string>)
  {
    instanceType.Some? && instanceType.value != ""
  }

  /** The quota lookups `generate_report` makes, in order. */
  function ReportRequests(instanceType: Option<string>): seq<Request>
  {
    (if Given(instanceType) then ComputeRequests(instanceType.value) else []) + GpuRequests
  }

  /** The report's lookups are the family code and spot when a type is given, then the four GPU codes. */
  lemma ReportCodes(instanceType: Option<string>)
    ensures var reqs := ReportRequests(instanceType);
      && |reqs| == (if Given(instanceType) then 6 else 4)
      && (forall i :: 0 <= i < |reqs| ==> reqs[i].service == "ec2")
      && (Given(instanceType) ==>
            reqs[0].code == FamilyQuotaCode(instanceType.value) && reqs[1].code == StandardCode)
      && reqs[|reqs| - 4..] == GpuRequests
      && [reqs[|reqs| - 4].code, reqs[|reqs| - 3].code, reqs[|reqs| - 2].code, reqs[|reqs| - 1].code]
         == ["L-DB2E81BA", "L-417A185B", "L-1945791B", "L-2C3B7624"]
  {
  }

  const DisplayWidth: nat := 50

  /** The name shown by `print_quota_section`: cut to 50 characters plus "..." when longer. */
  function DisplayName(name: string): (shown: string)
    ensures |name| <= DisplayWidth ==> shown == name
    ensures |name| > DisplayWidth ==>
              |shown| == DisplayWidth + 3 && name[..DisplayWidth] <= shown && shown[DisplayWidth..] == "..."
  {
    if |name| > DisplayWidth then name[..DisplayWidth] + "..." else name
  }

  /** A shown name is never longer than 53 characters and always starts like the full name. */
  lemma DisplayNameBounded(name: string)
    ensures |DisplayName(name)| <= DisplayWidth + 3
    ensures var n := if |name| < DisplayWidth then |name| else DisplayWidth;
            DisplayName(name)[..n] == name[..n]
  {
  }
}
