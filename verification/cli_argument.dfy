/**
 `getCLIArgument` (src/utils/get-cli-argument.ts): the first command-line
 argument that starts with `--<name>`, with the first `--<name>=` removed.
 The process arguments are a parameter.
 */
module Cli {
  import opened Wrappers
  import opened Text

  /** Position of the first argument at or after `from` that starts with `prefix`. */
  function FindFrom(argv: seq<string>, prefix: string, from: nat): (r: Option<nat>)
    ensures r.Some? ==> from <= r.value < |argv| && StartsWith(argv[r.value], prefix)
    ensures r.Some? ==> forall j :: from <= j < r.value ==> !StartsWith(argv[j], prefix)
    ensures r.None? ==> forall j :: from <= j < |argv| ==> !StartsWith(argv[j], prefix)
    decreases |argv| - from
  {
    if from >= |argv| then None
    else if StartsWith(argv[from], prefix) then Some(from)
    else FindFrom(argv, prefix, from + 1)
  }

  /** `argv.find(arg => arg.startsWith("--" + name))?.replace("--" + name + "=", "")` */
  function GetCliArgument(argv: seq<string>, name: string): (r: Option<string>)
    ensures r.None? <==> forall j :: 0 <= j < |argv| ==> !StartsWith(argv[j], "--" + name)
    ensures forall i :: 0 <= i < |argv| && StartsWith(argv[i], "--" + name)
                        && (forall j :: 0 <= j < i ==> !StartsWith(argv[j], "--" + name))
              ==> r == Some(ReplaceFirst(argv[i], "--" + name + "=", ""))
  {
    var flag := "--" + name;
    match FindFrom(argv, flag, 0)
    case None => None
    case Some(k) =>
      assert forall i :: 0 <= i < |argv| && StartsWith(argv[i], flag) && (forall j :: 0 <= j < i ==> !StartsWith(argv[j], flag))
               ==> i == k;
      Some(ReplaceFirst(argv[k], flag + "=", ""))
  }

  lemma StripFlag(name: string, value: string)
    ensures StartsWith("--" + name + "=" + value, "--" + name)
    ensures ReplaceFirst("--" + name + "=" + value, "--" + name + "=", "") == value
  {
    var flag := "--" + name;
    var arg := flag + "=" + value;
    assert arg[..|flag|] == flag;
    assert arg[..|flag + "="|] == flag + "=";
    assert arg[|flag + "="|..] == value;
  }

  /** `--name=value` yields `value`, and only the first matching argument counts. */
  lemma FlagValue(before: seq<string>, name: string, value: string, after: seq<string>)
    requires forall j :: 0 <= j < |before| ==> !StartsWith(before[j], "--" + name)
    ensures GetCliArgument(before + ["--" + name + "=" + value] + after, name) == Some(value)
  {
    var argv := before + ["--" + name + "=" + value] + after;
    StripFlag(name, value);
    assert argv[|before|] == "--" + name + "=" + value;
    assert forall j :: 0 <= j < |before| ==> argv[j] == before[j];
  }

  /** A matching argument without `--name=` in it, such as a bare `--name`, is returned unchanged. */
  lemma BareFlag(argv: seq<string>, name: string, i: nat)
    requires i < |argv| && StartsWith(argv[i], "--" + name)
    requires forall j :: 0 <= j < i ==> !StartsWith(argv[j], "--" + name)
    requires !Contains(argv[i], "--" + name + "=")
    ensures GetCliArgument(argv, name) == Some(argv[i])
  {
    forall j: nat ensures !OccursAt(argv[i], "--" + name + "=", j) {
      if OccursAt(argv[i], "--" + name + "=", j) {
        OccurrenceIsContained(argv[i], "--" + name + "=", j);
      }
    }
  }

  /** `pnpm stg --strapiDir=backend` gives "backend". */
  lemma StrapiDirExample()
    ensures GetCliArgument(["node", "stg", "--strapiDir=backend"], "strapiDir") == Some("backend")
  {
    assert !StartsWith("node", "--strapiDir");
    assert !StartsWith("stg", "--strapiDir");
    assert "--strapiDir=backend" == "--" + "strapiDir" + "=" + "backend";
    FlagValue(["node", "stg"], "strapiDir", "backend", []);
    assert ["node", "stg"] + ["--strapiDir=backend"] + [] == ["node", "stg", "--strapiDir=backend"];
  }
}
