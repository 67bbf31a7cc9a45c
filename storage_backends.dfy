/**
 * The three S3 storage backends and the `get_storage_backend` factory.  Each
 * backend is a set of constant attributes; the environment overrides read by
 * `config(...)` are not modelled, so every constant is its default.
 */
module StorageBackends {
  import opened Strings

  datatype Backend = AustraliaMedia | IndiaMedia | ProcessedData

  const AllBackends: seq<Backend> := [AustraliaMedia, IndiaMedia, ProcessedData]

  /** Default bucket of each backend; processed data shares the Australian bucket. */
  function BucketName(b: Backend): string
  {
    match b
    case AustraliaMedia => "migration-zone-docs-au"
    case IndiaMedia => "migration-zone-docs-in"
    case ProcessedData => "migration-zone-docs-au"
  }

  /** Default AWS region of each backend: Sydney for Australia and processed data, Mumbai for India. */
  function RegionName(b: Backend): string
  {
    match b
    case AustraliaMedia => "ap-southeast-2"
    case IndiaMedia => "ap-south-1"
    case ProcessedData => "ap-southeast-2"
  }

  /** The folder prefix each backend stores its objects under. */
  function Location(b: Backend): string
  {
    match b
    case AustraliaMedia => "documents/au"
    case IndiaMedia => "documents/in"
    case ProcessedData => "processed"
  }

  /** Whether a second upload under an existing name replaces the object. */
  function FileOverwrite(b: Backend): bool
  {
    b == ProcessedData
  }

  /** Server-side encryption setting; the processed-data backend sets none. */
  function Encryption(b: Backend): string
  {
    if b == ProcessedData then "" else "AES256"
  }

  /** `get_storage_backend(region)`: the region is lower-cased, "in" selects India and anything else Australia. */
  function GetStorageBackend(region: string): (b: Backend)
    ensures b == IndiaMedia <==> Lower(region) == "in"
    ensures b == AustraliaMedia <==> Lower(region) != "in"
  {
    if Lower(region) == "in" then IndiaMedia else AustraliaMedia
  }

  /** The factory's default argument is 'au', which selects Australia. */
  lemma DefaultRegionIsAustralia()
    ensures GetStorageBackend("au") == AustraliaMedia
  {
    assert Lower("au") == "au";
  }

  /** The four spellings of "in" under any case are exactly the ones that select India. */
  lemma IndiaSpellings(region: string)
    ensures GetStorageBackend(region) == IndiaMedia <==> region in ["in", "In", "iN", "IN"]
  {
    if |region| == 2 {
      var l := Lower(region);
      assert l == [LowerChar(region[0]), LowerChar(region[1])];
      if l == "in" {
        assert l[0] == 'i' && l[1] == 'n';
        assert region[0] == 'i' || region[0] == 'I';
        assert region[1] == 'n' || region[1] == 'N';
        assert region == [region[0], region[1]];
      }
    } else {
      assert |Lower(region)| != 2;
    }
  }

  /** The factory never hands out the processed-data backend. */
  lemma FactoryNeverProcessed(region: string)
    ensures GetStorageBackend(region) != ProcessedData
  {
  }

  /** Only the processed-data backend allows overwriting; the two regional backends forbid it. */
  lemma OverwriteOnlyForProcessed(b: Backend)
    ensures FileOverwrite(b) <==> b == ProcessedData
    ensures b == AustraliaMedia || b == IndiaMedia ==> !FileOverwrite(b) && Encryption(b) == "AES256"
  {
  }

  /** Processed data shares Australia's bucket and region but lives under a prefix that neither regional prefix overlaps. */
  lemma ProcessedDataSeparated()
    ensures BucketName(ProcessedData) == BucketName(AustraliaMedia)
    ensures RegionName(ProcessedData) == RegionName(AustraliaMedia)
    ensures !(Location(ProcessedData) <= Location(AustraliaMedia)) && !(Location(AustraliaMedia) <= Location(ProcessedData))
    ensures Location(AustraliaMedia) != Location(IndiaMedia)
  {
    assert Location(ProcessedData)[0] != Location(AustraliaMedia)[0];
  }

  /** Each regional bucket names its region: the Australian bucket contains "au", the Indian one "in". */
  lemma BucketNamesNameTheirRegion()
    ensures Contains(BucketName(AustraliaMedia), "au")
    ensures Contains(BucketName(IndiaMedia), "in")
    ensures BucketName(AustraliaMedia) != BucketName(IndiaMedia)
  {
    var au, ind := BucketName(AustraliaMedia), BucketName(IndiaMedia);
    assert "au" <= au[20..];
    ContainsSuffix(au, 20, "au");
    assert "in" <= ind[20..];
    ContainsSuffix(ind, 20, "in");
    assert au[21] != ind[21];
  }

  /** A needle found after dropping `k` characters is found in the whole text. */
  lemma {:induction false} ContainsSuffix(s: string, k: nat, sub: string)
    requires k <= |s|
    requires sub <= s[k..]
    ensures Contains(s, sub)
    decreases k
  {
    if k > 0 {
      assert s[1..][k - 1..] == s[k..];
      ContainsSuffix(s[1..], k - 1, sub);
    }
  }
}
