/**
 `getConfig` (src/utils/get-config.ts): merges command-line arguments, an
 optional JSON configuration file and defaults into one `Config`, detects the
 users-permissions plugin from the raw text of `package.json`, and remembers
 the first result.

 The process arguments, the files that exist (path to text) and `JSON.parse`
 are parts of an `Environment`. `JSON.parse` is split in two functions, one
 per shape the program reads: `None` stands for a text it rejects, and for a
 result that `parseJSON` (src/utils/parse-json.ts) turns into something
 falsy (`null`); a non-object value, which `parseJSON` replaces by `{}`, is
 an empty configuration.
 */
module Configuration {
  import opened Wrappers
  import opened Text
  import opened Types
  import opened Cli

  const DefaultConfigFile := "strapi-types-generate.json"
  const DefaultOutputDir := "./@types"
  const DefaultStrapiDir := "."
  const DefaultDateType := "string"
  const UsersPermissionsPlugin := "plugin-users-permissions"

  /** The fields of the configuration file the program reads; `None` when absent. */
  datatype FileConfig = FileConfig(
    outputDir: Option<string>,
    strapiDir: Option<string>,
    dateType: Option<string>,
    customFields: Option<CustomFieldsConfig>)

  /** `{}`: what a missing or unparsable configuration file amounts to. */
  const NoFileConfig := FileConfig(None, None, None, None)

  datatype Environment = Environment(
    argv: seq<string>,
    files: map<string, string>,
    parseConfigFile: string -> Option<FileConfig>,
    parseCustomFields: string -> Option<CustomFieldsConfig>)

  /** JavaScript truthiness of a possibly undefined string: defined and non-empty. */
  predicate Truthy(v: Option<string>) {
    v.Some? && v.value != ""
  }

  /** `v || fallback` */
  function Or(v: Option<string>, fallback: string): string {
    if Truthy(v) then v.value else fallback
  }

  /** `cli || file || default`, stated as the precedence it implements. */
  predicate ChosenByPrecedence(r: string, cli: Option<string>, file: Option<string>, default: string) {
    && (Truthy(cli) ==> r == cli.value)
    && (!Truthy(cli) && Truthy(file) ==> r == file.value)
    && (!Truthy(cli) && !Truthy(file) ==> r == default)
  }

  /** `cli || file || default` for a string setting. */
  function Setting(cli: Option<string>, file: Option<string>, default: string): (r: string)
    ensures ChosenByPrecedence(r, cli, file, default)
  {
    Or(cli, Or(file, default))
  }

  /** `fromCli || fromFile || {}`: a parsed object is truthy even when it has no key. */
  function MergeCustomFields(fromCli: Option<CustomFieldsConfig>, fromFile: Option<CustomFieldsConfig>)
    : (r: CustomFieldsConfig)
    ensures fromCli.Some? ==> r == fromCli.value
    ensures fromCli.None? && fromFile.Some? ==> r == fromFile.value
    ensures fromCli.None? && fromFile.None? ==> r == map[]
  {
    match fromCli
    case Some(fields) => fields
    case None => fromFile.GetOr(map[])
  }

  /**
   `parseJSON(text)`: `undefined` for a missing text (the parameter's default
   is "") and for "", on which `JSON.parse` always throws; otherwise what the
   parser makes of the text.
   */
  function ParseJson<T>(parse: string -> Option<T>, text: Option<string>): (r: Option<T>)
    ensures !Truthy(text) ==> r == None
    ensures Truthy(text) ==> r == parse(text.value)
  {
    match text
    case None => None
    case Some(t) => if t == "" then None else parse(t)
  }

  /** `getFileIfExists(path)` */
  function ReadFile(env: Environment, path: string): Option<string> {
    if path in env.files then Some(env.files[path]) else None
  }

  /** `CLI("config") || "strapi-types-generate.json"` */
  function ConfigFileName(argv: seq<string>): (r: string)
    ensures ChosenByPrecedence(r, GetCliArgument(argv, "config"), None, DefaultConfigFile)
  {
    Or(GetCliArgument(argv, "config"), DefaultConfigFile)
  }

  /** `parseJSON(configJSON) || {}` */
  function FileSettings(env: Environment): (r: FileConfig)
    ensures ConfigFileName(env.argv) !in env.files ==> r == NoFileConfig
    ensures var path := ConfigFileName(env.argv);
            path in env.files && env.files[path] == "" ==> r == NoFileConfig
    ensures var path := ConfigFileName(env.argv);
            (path in env.files && env.files[path] != "" && env.parseConfigFile(env.files[path]).Some?)
            ==> r == env.parseConfigFile(env.files[path]).value
    ensures var path := ConfigFileName(env.argv);
            (path in env.files && env.files[path] != "" && env.parseConfigFile(env.files[path]).None?)
            ==> r == NoFileConfig
  {
    ParseJson(env.parseConfigFile, ReadFile(env, ConfigFileName(env.argv))).GetOr(NoFileConfig)
  }

  /** `parseJSON(CLI("customFields"))` */
  function CliCustomFields(env: Environment): Option<CustomFieldsConfig> {
    ParseJson(env.parseCustomFields, GetCliArgument(env.argv, "customFields"))
  }

  /** The merged configuration, before memoisation. */
  function LoadConfig(env: Environment): (c: Config)
    ensures var cfg := FileSettings(env);
            && ChosenByPrecedence(c.outputDir, GetCliArgument(env.argv, "outputDir"), cfg.outputDir, DefaultOutputDir)
            && ChosenByPrecedence(c.strapiDir, GetCliArgument(env.argv, "strapiDir"), cfg.strapiDir, DefaultStrapiDir)
            && ChosenByPrecedence(c.dateType, GetCliArgument(env.argv, "dateType"), cfg.dateType, DefaultDateType)
    ensures c.strapiApiDir == c.strapiDir + "/src/api"
    ensures c.strapiComponentsDir == c.strapiDir + "/src/components"
    ensures c.usersEnabled <==>
              (c.strapiDir + "/package.json" in env.files
               && Contains(env.files[c.strapiDir + "/package.json"], UsersPermissionsPlugin))
    ensures var fromCli, fromFile := CliCustomFields(env), FileSettings(env).customFields;
            && (fromCli.Some? ==> c.customFields == fromCli.value)
            && (fromCli.None? && fromFile.Some? ==> c.customFields == fromFile.value)
            && (fromCli.None? && fromFile.None? ==> c.customFields == map[])
  {
    var cfg := FileSettings(env);
    var outputDir := Setting(GetCliArgument(env.argv, "outputDir"), cfg.outputDir, DefaultOutputDir);
    var strapiDir := Setting(GetCliArgument(env.argv, "strapiDir"), cfg.strapiDir, DefaultStrapiDir);
    var dateType := Setting(GetCliArgument(env.argv, "dateType"), cfg.dateType, DefaultDateType);
    var packageJson := ReadFile(env, strapiDir + "/package.json");
    var usersEnabled := packageJson.Some? && Contains(packageJson.value, UsersPermissionsPlugin);
    var customFields := MergeCustomFields(CliCustomFields(env), cfg.customFields);
    Config(outputDir, strapiDir, strapiDir + "/src/api", strapiDir + "/src/components",
           dateType, usersEnabled, customFields)
  }

  /**
   `getConfig()` with its module-level cell: the stored configuration when
   there is one, otherwise a freshly merged one, which is stored.
   Returns the configuration and the new content of the cell.
   */
  function GetConfig(cell: Option<Config>, env: Environment): (r: (Config, Option<Config>))
    ensures r.1 == Some(r.0)
    ensures cell.Some? ==> r.0 == cell.value
    ensures cell.None? ==> r.0 == LoadConfig(env)
  {
    match cell
    case Some(c) => (c, cell)
    case None =>
      var c := LoadConfig(env);
      (c, Some(c))
  }

  /** Once a configuration is stored, every later call returns that same record, whatever the environment. */
  lemma ConfigIsMemoised(env1: Environment, env2: Environment, env3: Environment)
    ensures var first := GetConfig(None, env1);
            var second := GetConfig(first.1, env2);
            second == first && GetConfig(second.1, env3) == first
  {
  }

  /** An empty `--outputDir=` is falsy: the file value or the default is used instead. */
  lemma EmptyCliValueFallsThrough(env: Environment, before: seq<string>, after: seq<string>)
    requires env.argv == before + ["--outputDir="] + after
    requires forall j :: 0 <= j < |before| ==> !StartsWith(before[j], "--outputDir")
    ensures LoadConfig(env).outputDir == Or(FileSettings(env).outputDir, DefaultOutputDir)
  {
    FlagValue(before, "outputDir", "", after);
    assert "--" + "outputDir" + "=" + "" == "--outputDir=";
  }

  /**
   Without a configuration file, the command line decides, and every field it
   leaves out takes its default; custom fields default to none.
   */
  lemma NoConfigFile(env: Environment)
    requires ConfigFileName(env.argv) !in env.files
    ensures var c := LoadConfig(env);
            && c.outputDir == Or(GetCliArgument(env.argv, "outputDir"), DefaultOutputDir)
            && c.strapiDir == Or(GetCliArgument(env.argv, "strapiDir"), DefaultStrapiDir)
            && c.dateType == Or(GetCliArgument(env.argv, "dateType"), DefaultDateType)
            && (GetCliArgument(env.argv, "customFields").None? ==> c.customFields == map[])
  {
  }

  /** With no arguments and no files, every field takes its default. */
  lemma AllDefaults(env: Environment)
    requires env.argv == [] && env.files == map[]
    ensures LoadConfig(env) == Config("./@types", ".", "./src/api", "./src/components", "string", false, map[])
  {
    NoConfigFile(env);
    var c := LoadConfig(env);
    assert c.strapiDir == DefaultStrapiDir;
    assert c.strapiApiDir == "./src/api" && c.strapiComponentsDir == "./src/components";
  }
}
