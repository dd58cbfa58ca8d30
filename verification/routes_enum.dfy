/**
 `createRoutesEnum` (src/create-routes-enum.ts): the `StrapiRoute` enum,
 with one or two members per schema in schema order, followed by the users
 routes when the users-permissions plugin is enabled. The schemas are given
 as (path, parsed schema) pairs in the order `getApiSchemas` lists them; the
 output file is returned rather than written.
 */
module Routes {
  import opened Text
  import opened Casing
  import opened Types
  import ApiInterface
  import ApiSchemas

  const EnumOpening := "export enum StrapiRoute {\n"
  const EnumClosing := "}\n"

  /** The two members added for the users-permissions plugin. */
  const UsersEntries := ["Users = 'users',\n", "UsersDocument = 'users/{documentId}',\n"]

  /** `titleCase(s.split("/").at(-2))`: the same name the API interface gets. */
  function RouteName(schemaPath: string): string {
    ApiInterface.InterfaceName(schemaPath)
  }

  /** `Name = 'route',` */
  function Member(name: string, route: string): string {
    name + " = '" + route + "',\n"
  }

  /** The members of one schema: the plural route and its document route, or the singular route. */
  function Entries(schemaPath: string, schema: TypeSchema): (r: seq<string>)
    ensures schema.kind == CollectionType ==> |r| == 2
    ensures schema.kind != CollectionType ==> |r| == 1
  {
    var name := RouteName(schemaPath);
    if schema.kind == CollectionType then
      [Member(name, schema.info.pluralName), Member(name + "Document", schema.info.pluralName + "/{documentId}")]
    else
      [Member(name, schema.info.singularName)]
  }

  /** Number of collection types among `schemas`. */
  function Collections(schemas: seq<(string, TypeSchema)>): nat {
    if |schemas| == 0 then 0
    else (if schemas[0].1.kind == CollectionType then 1 else 0) + Collections(schemas[1..])
  }

  /** The members of every schema, in schema order. */
  function SchemaEntries(schemas: seq<(string, TypeSchema)>): seq<string> {
    if |schemas| == 0 then []
    else Entries(schemas[0].0, schemas[0].1) + SchemaEntries(schemas[1..])
  }

  /** The users routes: present only when the plugin is enabled. */
  function UsersRoutes(usersEnabled: bool): seq<string> {
    if usersEnabled then UsersEntries else []
  }

  /** All members of the enum, users routes last. */
  function EnumEntries(schemas: seq<(string, TypeSchema)>, usersEnabled: bool): seq<string> {
    SchemaEntries(schemas) + UsersRoutes(usersEnabled)
  }

  /** The enum declaration around `entries`. */
  function EnumText(entries: seq<string>): string {
    EnumOpening + Join(entries, "") + EnumClosing
  }

  /** `createRoutesEnum()`: the file `<outputDir>/Routes.ts` and its text. */
  function CreateRoutesEnum(schemas: seq<(string, TypeSchema)>, usersEnabled: bool, outputDir: string): (r: OutputFile)
    ensures r.path == outputDir + "/Routes.ts"
    ensures StartsWith(r.text, EnumOpening) && EndsWith(r.text, EnumClosing)
    ensures |r.text| == |EnumOpening| + |Join(EnumEntries(schemas, usersEnabled), "")| + |EnumClosing|
    ensures r.text[|EnumOpening|..|r.text| - |EnumClosing|] == Join(EnumEntries(schemas, usersEnabled), "")
  {
    var body := Join(EnumEntries(schemas, usersEnabled), "");
    var text := EnumText(EnumEntries(schemas, usersEnabled));
    assert text[..|EnumOpening|] == EnumOpening;
    assert text[|text| - |EnumClosing|..] == EnumClosing;
    assert text[|EnumOpening|..|text| - |EnumClosing|] == body;
    OutputFile(outputDir + "/Routes.ts", text)
  }

  /** Number of members: two per collection type, one per other schema, two for the users routes. */
  lemma {:induction false} EntryCount(schemas: seq<(string, TypeSchema)>, usersEnabled: bool)
    ensures Collections(schemas) <= |schemas|
    ensures |EnumEntries(schemas, usersEnabled)|
         == 2 * Collections(schemas) + (|schemas| - Collections(schemas)) + (if usersEnabled then 2 else 0)
    decreases |schemas|
  {
    if |schemas| > 0 {
      EntryCount(schemas[1..], false);
    }
  }

  /** The members of `xs + ys` are those of `xs` followed by those of `ys`. */
  lemma {:induction false} EntriesAppend(xs: seq<(string, TypeSchema)>, ys: seq<(string, TypeSchema)>)
    ensures SchemaEntries(xs + ys) == SchemaEntries(xs) + SchemaEntries(ys)
    decreases |xs|
  {
    if |xs| == 0 {
      assert xs + ys == ys;
    } else {
      assert (xs + ys)[0] == xs[0];
      assert (xs + ys)[1..] == xs[1..] + ys;
      EntriesAppend(xs[1..], ys);
    }
  }

  /**
   In the enum text, the members of earlier schemas come before those of
   later ones, and the users routes, when enabled, come last.
   */
  lemma TextFollowsSchemaOrder(xs: seq<(string, TypeSchema)>, ys: seq<(string, TypeSchema)>, usersEnabled: bool,
                               outputDir: string)
    ensures CreateRoutesEnum(xs + ys, usersEnabled, outputDir).text
         == EnumOpening + Join(SchemaEntries(xs), "") + Join(SchemaEntries(ys), "")
            + Join(UsersRoutes(usersEnabled), "") + EnumClosing
  {
    EntriesAppend(xs, ys);
    EnumTextOfThree(SchemaEntries(xs), SchemaEntries(ys), UsersRoutes(usersEnabled));
  }

  lemma EnumTextOfThree(a: seq<string>, b: seq<string>, u: seq<string>)
    ensures EnumText(a + b + u) == EnumOpening + Join(a, "") + Join(b, "") + Join(u, "") + EnumClosing
  {
    ConcatAppend(a + b, u);
    ConcatAppend(a, b);
  }

  /** The users routes are present exactly when enabled, and then after every schema member. */
  lemma UsersRoutesLast(schemas: seq<(string, TypeSchema)>, usersEnabled: bool)
    ensures var es := EnumEntries(schemas, usersEnabled);
            && es[..|SchemaEntries(schemas)|] == SchemaEntries(schemas)
            && (usersEnabled ==> es[|SchemaEntries(schemas)|..] == UsersEntries)
            && (!usersEnabled ==> es == SchemaEntries(schemas))
  {
    var es := EnumEntries(schemas, usersEnabled);
    var n := |SchemaEntries(schemas)|;
    assert es[..n] == SchemaEntries(schemas);
  }

  /** The members of a collection type and of a single type. */
  lemma EntriesByKind(schemaPath: string, schema: TypeSchema)
    ensures var name := RouteName(schemaPath);
            && (schema.kind == CollectionType ==>
                  Join(Entries(schemaPath, schema), "")
                  == name + " = '" + schema.info.pluralName + "',\n"
                     + name + "Document = '" + schema.info.pluralName + "/{documentId}',\n")
            && (schema.kind == SingleType ==>
                  Join(Entries(schemaPath, schema), "") == name + " = '" + schema.info.singularName + "',\n")
  {
    var es := Entries(schemaPath, schema);
    var name := RouteName(schemaPath);
    if schema.kind == CollectionType {
      var p := schema.info.pluralName;
      assert es == [Member(name, p), Member(name + "Document", p + "/{documentId}")];
      assert es[1..] == [es[1]];
      assert Join(es, "") == Member(name, p) + Member(name + "Document", p + "/{documentId}");
      CollectionMembers(name, p);
    }
  }

  lemma CollectionMembers(name: string, p: string)
    ensures Member(name, p) + Member(name + "Document", p + "/{documentId}")
         == name + " = '" + p + "',\n" + name + "Document = '" + p + "/{documentId}',\n"
  {
    assert "Document = '" == "Document" + " = '";
    assert "/{documentId}',\n" == "/{documentId}" + "',\n";
  }

  /** A schema found under API folder `folder` is routed under the title-cased folder name. */
  lemma RouteNameOfFolder(folder: string)
    ensures RouteName(ApiSchemas.SchemaPath(folder)) == TitleCase(Last(Split(folder, {'/'})))
  {
    ApiSchemas.SchemaPathSegments(folder);
  }
}
