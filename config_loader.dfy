/** Loading and validating the job configuration (load_config in run.py). */
module ConfigLoader {
  import opened Common

  /** What reading the configuration path produced: the file was not there,
      the YAML parser rejected it, or it parsed to a mapping. */
  datatype ConfigFile = ConfigMissing | ConfigUnparseable | ConfigRead(doc: Config)

  const ConfigNotFoundMessage := "Config file not found"
  const InvalidYamlMessage := "Invalid YAML format"

  /** The keys every configuration must hold, in the order they are checked. */
  const RequiredFields: seq<string> := ["seed", "window", "version"]

  function MissingFieldMessage(field: string): string {
    "Missing required config field: " + field
  }

  /** The first of `fields` that `doc` lacks, scanning left to right. */
  function FirstMissing(fields: seq<string>, doc: Config): (r: Option<string>)
    ensures r.Some? ==> r.value in fields && r.value !in doc
    ensures r.None? ==> forall f :: f in fields ==> f in doc
  {
    if fields == [] then None
    else if fields[0] !in doc then Some(fields[0])
    else FirstMissing(fields[1..], doc)
  }

  /** FirstMissing reports a missing field exactly when one exists, and the one
      it reports is the leftmost: every field before it is present. */
  lemma {:induction false} FirstMissingIsLeftmost(fields: seq<string>, doc: Config)
    ensures FirstMissing(fields, doc).None? <==> forall j :: 0 <= j < |fields| ==> fields[j] in doc
    ensures FirstMissing(fields, doc).Some? ==>
      exists k :: 0 <= k < |fields| && fields[k] == FirstMissing(fields, doc).value
        && fields[k] !in doc && forall j :: 0 <= j < k ==> fields[j] in doc
  {
    if fields != [] && fields[0] in doc {
      FirstMissingIsLeftmost(fields[1..], doc);
      if FirstMissing(fields, doc).Some? {
        var k :| 0 <= k < |fields[1..]| && fields[1..][k] == FirstMissing(fields, doc).value
          && fields[1..][k] !in doc && forall j :: 0 <= j < k ==> fields[1..][j] in doc;
        assert fields[k + 1] == fields[1..][k];
        assert forall j :: 1 <= j < k + 1 ==> fields[j] == fields[1..][j - 1];
      } else {
        assert forall j :: 1 <= j < |fields| ==> fields[j] == fields[1..][j - 1];
      }
    }
  }

  /** The outcome load_config specifies: the file errors first, then the
      leftmost missing required field; otherwise the document itself. */
  function LoadConfigSpec(file: ConfigFile): (r: Result<Config, string>)
    ensures r.Success? ==> file.ConfigRead? && r.value == file.doc
    ensures r.Success? ==> forall f :: f in RequiredFields ==> f in r.value
  {
    match file
    case ConfigMissing => Failure(ConfigNotFoundMessage)
    case ConfigUnparseable => Failure(InvalidYamlMessage)
    case ConfigRead(doc) =>
      FirstMissingIsLeftmost(RequiredFields, doc);
      match FirstMissing(RequiredFields, doc)
      case Some(field) => Failure(MissingFieldMessage(field))
      case None => Success(doc)
  }

  /** load_config: scans the required fields in order and stops at the first
      one the document lacks. */
  method LoadConfig(file: ConfigFile) returns (r: Result<Config, string>)
    ensures r == LoadConfigSpec(file)
  {
    match file {
      case ConfigMissing => return Failure(ConfigNotFoundMessage);
      case ConfigUnparseable => return Failure(InvalidYamlMessage);
      case ConfigRead(doc) =>
        var i := 0;
        while i < |RequiredFields|
          invariant 0 <= i <= |RequiredFields|
          invariant FirstMissing(RequiredFields, doc) == FirstMissing(RequiredFields[i..], doc)
        {
          var field := RequiredFields[i];
          if field !in doc {
            return Failure(MissingFieldMessage(field));
          }
          assert RequiredFields[i..][1..] == RequiredFields[i + 1..];
          i := i + 1;
        }
        return Success(doc);
    }
  }

  /** A parsed document passes exactly when it holds all three required keys,
      and is then returned unchanged; a failing one names the leftmost missing
      key among seed, window, version, whatever else is missing. */
  lemma ConfigValidation(doc: Config)
    ensures LoadConfigSpec(ConfigRead(doc)).Success? <==>
      "seed" in doc && "window" in doc && "version" in doc
    ensures LoadConfigSpec(ConfigRead(doc)).Success? ==> LoadConfigSpec(ConfigRead(doc)).value == doc
    ensures "seed" !in doc ==> LoadConfigSpec(ConfigRead(doc)) == Failure(MissingFieldMessage("seed"))
    ensures "seed" in doc && "window" !in doc ==>
      LoadConfigSpec(ConfigRead(doc)) == Failure(MissingFieldMessage("window"))
    ensures "seed" in doc && "window" in doc && "version" !in doc ==>
      LoadConfigSpec(ConfigRead(doc)) == Failure(MissingFieldMessage("version"))
  {
    FirstMissingIsLeftmost(RequiredFields, doc);
    assert RequiredFields[0] == "seed" && RequiredFields[1] == "window" && RequiredFields[2] == "version";
  }
}
