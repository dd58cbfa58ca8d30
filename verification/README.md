# strapi-generate-types, modelled in Dafny

strapi-generate-types reads the JSON schemas of a Strapi project and writes
TypeScript declaration files: an `Api` namespace with one interface per
collection or single type, a `Components` namespace with one interface per
component, a `Strapi` namespace with built-in and users-permissions
interfaces, and a `StrapiRoute` enum of REST routes.

This project models the text-producing core of the generator as pure Dafny
functions over immutable datatypes, and proves what each piece promises:

- the attribute mapper (`parseAttribute`), from an attribute kind to one property line;
- the identifier helpers `titleCase`, `isNullable` and the command-line lookup;
- the configuration merge (command line, then configuration file, then defaults) with its memo cell;
- the custom-field type map;
- the API and component interface builders;
- the derivation and sorting of schema paths;
- the route enum, the namespace wrapper and the users-permissions interfaces.

Everything the program reads at run time is an explicit parameter:
- the process arguments (`seq<string>`);
- the files that exist, as a map from path to text;
- `JSON.parse`, as two functions;
- the directory listing and the collation order;
- the configured `dateType`, the custom-field map and `usersEnabled`.

Schemas reach the builders already parsed. A builder returns its text, or an
`OutputFile` holding a path and a text, instead of writing it.

| file | module | models |
|---|---|---|
| wrappers.dfy | `Wrappers` | `Option` |
| text.dfy | `Text` | JavaScript `startsWith`, `endsWith`, `includes`, `replace`, `split`, `join`, `map`, `pop`, `at`, template interpolation |
| types.dfy | `Types` | src/types.ts |
| title_case.dfy | `Casing` | src/utils/title-case.ts |
| cli_argument.dfy | `Cli` | src/utils/get-cli-argument.ts |
| config.dfy | `Configuration` | src/utils/get-config.ts |
| custom_fields.dfy | `CustomFields` | src/get-custom-fields.ts |
| parse_attribute.dfy | `Attributes` | src/utils/is-nullable.ts, src/parse-attribute.ts |
| api_interface.dfy | `ApiInterface` | src/create-api-interface.ts |
| component_interface.dfy | `ComponentInterface` | src/create-component-interface.ts |
| api_schemas.dfy | `ApiSchemas` | src/file-system/get-api-schemas.ts |
| routes_enum.dfy | `Routes` | src/create-routes-enum.ts |
| namespace.dfy | `Namespace` | src/create-namespace.ts |
| user_permissions.dfy | `UserPermissions` | src/constants/user-permissions.ts, src/get-users-interface.ts |

The `Attribute` union of src/types.ts:81-92 is a Dafny datatype with one
constructor per shape, so every function over it is exhaustive. The datatype
also fixes these shapes:
- relation cardinalities are the four values of `RelationKind`;
- a schema kind is `CollectionType` or `SingleType`;
- a custom-field value is a plain type or a named interface;
- a relation has no `required` field.

A twelfth constructor, `UnrecognisedAttribute`, stands for a JSON attribute
whose `type` matches none of the kinds. The union does not describe it, but
the final `else` of `parseAttribute` handles it.

## Model

| member | source | states |
|---|---|---|
| `Casing.TitleCase` | src/utils/title-case.ts:4-11 | `titleCase`: the letter runs of the input, each capitalised, joined without a separator; stated by `Casing.TitleCaseCharwise`, `Casing.TitleCaseLetters` and `Casing.TitleCaseSize` |
| `Casing.Words` | src/utils/title-case.ts:5 | every word the letter-run match yields is non-empty and made of ASCII letters only |
| `Casing.TitleCaseFrom` | src/utils/title-case.ts:5-10 | the character-wise reference definition yields one ASCII letter per input letter and nothing else |
| `Casing.TitleCaseCharwise` | src/utils/title-case.ts:4-11 | `titleCase` equals the character-wise reference: each letter that opens a run is upper-cased, each letter that continues a run is lower-cased, every other character is dropped, and words follow input order without a separator |
| `Casing.TitleCaseLetters` | src/utils/title-case.ts:5-10 | the output contains only ASCII letters, exactly as many as the input has |
| `Casing.TitleCaseSize` | src/utils/title-case.ts:4-10 | the output is never longer than the input, and it is "" exactly when the input (including the default "") has no letter |
| `Casing.TitleCaseMainHeader` | src/create-component-interface.ts:11-13 | separators only separate words: "main-header" becomes "MainHeader" |
| `Attributes.IsNullable` | src/utils/is-nullable.ts:6-8 | nullable when `required` is absent or exactly true, not nullable when it is false; a relation, which has no `required`, is always nullable |
| `Attributes.ToManyNames` | src/parse-attribute.ts:42 | the cardinality's name ends with "ToMany" exactly for oneToMany and manyToMany |
| `Attributes.TypeExpression` | src/parse-attribute.ts:35-118 | the type written after a key, per kind; stated by `Attributes.RelationShape`, `Attributes.ComponentType`, `Attributes.DynamicZoneType`, `Attributes.MediaTypeExpression`, `Attributes.EnumOrder` and `Attributes.FixedKinds` |
| `Attributes.RelationType` | src/parse-attribute.ts:36-43 | a relation's type is in namespace `Strapi` for the users-permissions role and in `Api` otherwise, and ends with "[]" exactly for the to-many cardinalities |
| `Attributes.RelationShape` | src/parse-attribute.ts:36-43 | a relation's type is the namespace, a dot, the title-cased last ':' or '.' segment of the target, and "[]" exactly for the to-many cardinalities |
| `Attributes.RelationTargetName` | src/parse-attribute.ts:41-42 | a target ending in a ':' or '.' followed by a delimiter-free segment is typed as that segment title-cased: `api::article.article` is `Api.Article` |
| `Attributes.RoleExample` | src/parse-attribute.ts:37-42 | a many-to-many relation to `plugin::users-permissions.role` is `Strapi.Role[]` |
| `Attributes.ComponentType` | src/parse-attribute.ts:46-49 | a component's type is `Components.` plus the title-cased part after the last dot, and ends with "[]" exactly when repeatable |
| `Attributes.DynamicZoneType` | src/parse-attribute.ts:52-56 | a dynamic zone is always a parenthesised union followed by "[]" |
| `Attributes.DynamicZoneOrder` | src/parse-attribute.ts:53-55 | the dynamic-zone union lists its components in list order, separated by " \| " |
| `Attributes.MediaTypeExpression` | src/parse-attribute.ts:59-62 | media is exactly "Strapi.Media", or "Strapi.Media[]" when `multiple` |
| `Attributes.EnumSmall` | src/parse-attribute.ts:65-67 | an enumeration with no value gives "", and one value gives that value single-quoted |
| `Attributes.EnumOrder` | src/parse-attribute.ts:65-67 | the enumeration values stay in order, quoted and separated by " \| " |
| `Attributes.FixedKinds` | src/parse-attribute.ts:69-118 | every text kind is "string", json is "any", every numeric kind is "number", every date kind is the configured date type, boolean is "boolean", a custom field is its non-empty mapped type or "unknown", and any other kind is "unknown" |
| `Attributes.ParseAttribute` | src/parse-attribute.ts:19-121 | a password gives ""; any other attribute gives name + "?: " + type + ";\n", and a nullable one gets "null \| " inserted in front of the type with a second space before it |
| `Attributes.AttributeLinesShape` | src/create-api-interface.ts:26-28 | the concatenated property lines are empty or end with ";\n", and they are empty when every attribute is a password |
| `Attributes.AttributeLinesAppend` | src/create-api-interface.ts:26-28 | the property lines of two runs of entries are the lines of the first run followed by those of the second |
| `Attributes.PasswordContributesNothing` | src/parse-attribute.ts:30-33 | inserting a password attribute anywhere leaves the property lines unchanged |
| `Attributes.MediaExample` | src/parse-attribute.ts:16 | the nullable single-media attribute `thumbnail` gives "thumbnail?: null \|  Strapi.Media;\n" |
| `Cli.FindFrom` | src/utils/get-cli-argument.ts:9 | the position found is the first argument at or after the start that begins with the prefix, and none is found only when no such argument exists |
| `Cli.GetCliArgument` | src/utils/get-cli-argument.ts:7-11 | undefined exactly when no argument starts with `--name`; otherwise the first such argument, with its first `--name=` removed |
| `Cli.FlagValue` | src/utils/get-cli-argument.ts:8-10 | the first `--name=value` argument yields `value`, whatever follows it |
| `Cli.BareFlag` | src/utils/get-cli-argument.ts:9-10 | matching is by prefix only: a matching argument without `--name=` in it is returned unchanged |
| `Cli.StrapiDirExample` | src/utils/get-cli-argument.ts:4-5 | `--strapiDir=backend` yields "backend" |
| `Configuration.ConfigFileName` | src/utils/get-config.ts:16 | the configuration file is the `--config` value when it is non-empty, and "strapi-types-generate.json" otherwise |
| `Configuration.ParseJson` | src/utils/parse-json.ts:4-12 | a missing text (the default "") or an empty one gives `undefined` without reaching the parser; any other text gives what the parser makes of it |
| `Configuration.FileSettings` | src/utils/get-config.ts:16-18 | a missing or empty configuration file, and one the parser rejects, counts as `{}`; any other file gives the parsed settings |
| `Configuration.CliCustomFields` | src/utils/get-config.ts:26 | `parseJSON(CLI("customFields"))`; stated through `Configuration.LoadConfig` and `Configuration.NoConfigFile` |
| `Configuration.Setting` | src/utils/get-config.ts:20-22 | a string setting is the non-empty command-line value, else the non-empty file value, else the default |
| `Configuration.MergeCustomFields` | src/utils/get-config.ts:25-26 | the parsed command-line custom fields win, even when empty of keys; else the file's; else the empty map |
| `Configuration.LoadConfig` | src/utils/get-config.ts:16-36 | `outputDir`, `strapiDir` and `dateType` take the non-empty command-line value, else the non-empty file value, else "./@types", "." and "string"; the API and components directories are `strapiDir` + "/src/api" and + "/src/components"; users are enabled exactly when `package.json` exists and contains "plugin-users-permissions"; custom fields come from the parsed `--customFields` JSON, else the file, else the empty map; a missing or empty `--customFields` is never parsed |
| `Configuration.GetConfig` | src/utils/get-config.ts:11-41 | a stored configuration is returned as is; an empty cell gives a freshly merged configuration; either way the cell then holds the result |
| `Configuration.ConfigIsMemoised` | src/utils/get-config.ts:12-14 | once a configuration is stored, later calls return that same record whatever the arguments and files are |
| `Configuration.EmptyCliValueFallsThrough` | src/utils/get-config.ts:20 | an empty `--outputDir=` is falsy: the file value or the default is used |
| `Configuration.AllDefaults` | src/utils/get-config.ts:16-36 | with no arguments and no files, whatever the parser, the configuration is made of the defaults, users disabled and no custom fields |
| `Configuration.NoConfigFile` | src/utils/get-config.ts:16-26 | without a configuration file, each field is its non-empty command-line value or the default, and no `--customFields` means no custom fields |
| `CustomFields.GetCustomFields` | src/get-custom-fields.ts:29-41 | the result has exactly the configuration's keys; a plain type maps to itself and a named interface to "Strapi." + its name |
| `CustomFields.DocumentedExample` | src/get-custom-fields.ts:10-27 | the documented colour-picker and iconhub configuration gives the documented map |
| `CustomFields.EmptyConfig` | src/get-custom-fields.ts:30-40 | an empty configuration gives an empty map |
| `ApiInterface.InterfaceName` | src/create-api-interface.ts:20 | the title-cased second-to-last "/" segment of the schema path; stated by `ApiInterface.NameFromFolder` |
| `ApiInterface.Header` | src/create-api-interface.ts:21 | the opening line with the `id` and `documentId` members; placed first by `ApiInterface.Layout` |
| `ApiInterface.LocaleLines` | src/create-api-interface.ts:30-32 | the `locale` and `localizations` members; present exactly when localized by `ApiInterface.LocalizedIff` |
| `ApiInterface.CreateApiInterface` | src/create-api-interface.ts:19-37 | the text starts with the interface header of the title-cased folder name, ends with "}\n", ends with the locale members followed by "}\n" when localized, and with ";\n}\n" otherwise |
| `ApiInterface.LocalizedIff` | src/create-api-interface.ts:30-32 | the locale and localizations members are present exactly when the schema is localized |
| `ApiInterface.Layout` | src/create-api-interface.ts:19-37 | for every schema, the interface is the header, the property lines of the attributes in entry order, the locale members exactly when localized, and "}\n" |
| `ApiInterface.AttributesInOrder` | src/create-api-interface.ts:26-32 | splitting the attributes into two runs, the lines of the first run come before those of the second, and both come before the locale members of a localized type |
| `ApiInterface.PasswordsIgnored` | src/create-api-interface.ts:26-28 | removing a password attribute does not change the interface |
| `ApiInterface.NameFromFolder` | src/create-api-interface.ts:20 | the interface name is the title-cased folder that directly holds the schema file |
| `ApiInterface.TagExample` | src/create-api-interface.ts:11-13 | "src/api/tag/content-types/tag/schema.json" gives the name "Tag" |
| `ComponentInterface.FullName` | src/create-component-interface.ts:20 | the third- and second-to-last "/" or "." segments joined by a dot; stated by `ComponentInterface.NamesOfPath` |
| `ComponentInterface.InterfaceName` | src/create-component-interface.ts:21 | the title-cased part after the full name's first dot; stated by `ComponentInterface.NameIsSecondPart` |
| `ComponentInterface.Header` | src/create-component-interface.ts:22 | the opening line with the `__component` and `id` members; placed first by `ComponentInterface.Layout` |
| `ComponentInterface.CreateComponentInterface` | src/create-component-interface.ts:19-34 | the text starts with the header naming the interface and its `__component` full name, and ends with ";\n}\n" |
| `ComponentInterface.Layout` | src/create-component-interface.ts:19-34 | the interface is the header, the property lines of the attributes in entry order, and "}\n" |
| `ComponentInterface.AttributesInOrder` | src/create-component-interface.ts:26-29 | splitting the attributes into two runs, the lines of the first run come before those of the second |
| `ComponentInterface.PasswordsIgnored` | src/create-component-interface.ts:26-29 | removing a password attribute does not change the component interface |
| `ComponentInterface.NameIsSecondPart` | src/create-component-interface.ts:20-21 | the interface name is the title-cased second-to-last path segment, for every path |
| `ComponentInterface.NamesOfPath` | src/create-component-interface.ts:20-21 | the file `<dir>/<category>/<name>.json` is the component `category.name`, and its interface is named after `name` |
| `ComponentInterface.ReferenceMatchesInterface` | src/parse-attribute.ts:46-49 | a component attribute referencing a component's full name is typed with the very interface name the component builder gives that component's file |
| `ComponentInterface.MainHeaderExample` | src/create-component-interface.ts:11-14 | "src/components/header/main-header.json" is `header.main-header` with interface `MainHeader` |
| `ApiSchemas.SchemaPath` | src/file-system/get-api-schemas.ts:18 | the folder, "/content-types/", its last segment and "/schema.json"; stated by `ApiSchemas.SchemaPathSegments` |
| `ApiSchemas.SortBy` | src/file-system/get-api-schemas.ts:19 | the sorted list is a permutation of its input |
| `ApiSchemas.GetApiSchemas` | src/file-system/get-api-schemas.ts:15-20 | one path per listed folder, and the result is a permutation of the folders' schema paths |
| `ApiSchemas.ApiSchemasSorted` | src/file-system/get-api-schemas.ts:19 | with a total comparator, every path is ordered before its successor |
| `ApiSchemas.PathsOfFolders` | src/file-system/get-api-schemas.ts:16-18 | every produced path is the schema path of a listed folder, and every folder's schema path is produced |
| `ApiSchemas.SchemaPathSegments` | src/file-system/get-api-schemas.ts:18 | the second-to-last "/" segment of a schema path is the folder's last segment, so the interface name is that segment title-cased |
| `ApiSchemas.SortedUnique` | src/file-system/get-api-schemas.ts:19 | under a total, transitive and antisymmetric comparator, two sorted lists with the same elements are the same list |
| `ApiSchemas.ListingOrderIrrelevant` | src/file-system/get-api-schemas.ts:16-19 | under such a comparator, listings that hold the same folders in any order give exactly the same sorted paths |
| `Routes.Entries` | src/create-routes-enum.ts:31-38 | a collection type gives two members, any other schema one |
| `Routes.EntriesByKind` | src/create-routes-enum.ts:33-38 | a collection type gives `Name = '<plural>'` then `NameDocument = '<plural>/{documentId}'`; a single type gives `Name = '<singular>'` |
| `Routes.EntryCount` | src/create-routes-enum.ts:26-44 | the enum has two members per collection type, one per other schema, and two more when users are enabled |
| `Routes.EntriesAppend` | src/create-routes-enum.ts:26-39 | members follow schema order |
| `Routes.TextFollowsSchemaOrder` | src/create-routes-enum.ts:24-46 | whether or not users are enabled, the enum text is the opening line, the members of earlier schemas, those of later ones, the users routes when enabled, and "}\n" |
| `Routes.UsersRoutesLast` | src/create-routes-enum.ts:41-44 | the Users and UsersDocument members are present exactly when enabled, and come after every schema member |
| `Routes.UsersRoutes` | src/create-routes-enum.ts:41-44 | the Users and UsersDocument members, or none when users are disabled; stated by `Routes.UsersRoutesLast` |
| `Routes.CreateRoutesEnum` | src/create-routes-enum.ts:22-49 | the file is `<outputDir>/Routes.ts`; its text opens with "export enum StrapiRoute {\n", closes with "}\n" and holds the members in between |
| `Routes.RouteNameOfFolder` | src/create-routes-enum.ts:29 | a schema found under an API folder is routed under the title-cased folder name |
| `Routes.RouteName` | src/create-routes-enum.ts:29 | the same name the API interface gets; stated by `Routes.RouteNameOfFolder` |
| `Namespace.CreateNamespace` | src/create-namespace.ts:20-23 | the file is `<outputDir>/<name>.d.ts`; the text opens with "declare namespace <name> { " and closes with " }"; no contents give "declare namespace <name> {  }" and one content item is placed between the two unchanged |
| `Namespace.ContentsInPlace` | src/create-namespace.ts:21 | each content item appears at its own position: after the opening, the items before it and one line break per earlier item |
| `Namespace.TextLength` | src/create-namespace.ts:21 | nothing but the items and one line break between neighbours is added inside the braces |
| `Namespace.GroupsInOrder` | src/create-namespace.ts:21 | two groups of contents appear in the given order, separated by a single line break |
| `UserPermissions.GetUsersInterface` | src/get-users-interface.ts:7-15 | nothing exactly when the extension schema does not exist; otherwise the interface named `User` built from the extension schema: its header, the property lines of its attributes in entry order, the locale members exactly when it is localized, and "}\n" |
| `UserPermissions.UserSchemaIsNamedUser` | src/get-users-interface.ts:8 | the extension schema path yields the interface name "User" |
| `UserPermissions.UserSchemaPath` | src/get-users-interface.ts:8 | the extension schema's path under the Strapi directory; stated by `UserPermissions.UserSchemaIsNamedUser` |
| `UserPermissions.UserPermissionsInterfaces` | src/constants/user-permissions.ts:48-50 | empty when users are disabled; otherwise exactly Role, Permission and User in that order, where User is the interface generated from the extension schema when it exists and the built-in template otherwise |
| `UserPermissions.Role` | src/constants/user-permissions.ts:6-18 | the Role template; stated by `UserPermissions.RoleUsesString` |
| `UserPermissions.Permission` | src/constants/user-permissions.ts:20-30 | the Permission template; stated by `UserPermissions.PermissionUsesDateType` |
| `UserPermissions.User` | src/constants/user-permissions.ts:32-46 | the built-in User template; stated by `UserPermissions.UserUsesDateType` |
| `UserPermissions.RoleUsesString` | src/constants/user-permissions.ts:6-18 | Role's timestamp members are typed `string` |
| `UserPermissions.PermissionUsesDateType` | src/constants/user-permissions.ts:20-30 | Permission's timestamp members carry the configured date type |
| `UserPermissions.UserUsesDateType` | src/constants/user-permissions.ts:32-46 | the built-in User's timestamp members carry the configured date type |
| `UserPermissions.TemplatesFollowDateType` | src/constants/user-permissions.ts:20-46 | different date types give different Permission and User templates |

## Left out

- File-system access is not modelled: `exists`, `getFileIfExists`, `createDir`, `readFile`, `writeFile` and `process.exit`. Their results are parameters, and written files are returned as `OutputFile` values.
- Directory listings are not modelled: `getSubdirectories`, `getFiles` and the component-schema flattening. The listing is a parameter, because its order depends on directory state.
- The formatter run is not modelled (`prettify` shells out to prettier). It later collapses the double space after "null |", which is why the doc comment of `parseAttribute` shows one space where the code writes two.
- The orchestration in src/index.ts is not modelled. The `Strapi` namespace lists built-in interfaces, then users-permissions interfaces, then custom interfaces (src/index.ts:32-39); `Namespace.GroupsInOrder` states the ordering property such a call relies on.
- `JSON.parse` is not modelled. It is a parameter, split by the shape read: `Environment.parseConfigFile` and `Environment.parseCustomFields`, where `None` stands for a rejected text or a `null` result, and a non-object value is the empty configuration. `Configuration.ParseJson` models the rest of `parseJSON` (src/utils/parse-json.ts), so missing and empty texts never reach the parser.
- Configuration.GetConfig: the memo cell is modelled as one synchronous step. In the source, `getConfig` is async: a second call that starts before the first one stores its result finds the cell empty and merges again (src/utils/get-config.ts:12-14, 38).
- The custom-interface rendering (src/get-custom-interfaces.ts) is not modelled. It rewrites `JSON.stringify` output with regular expressions.
- The fixed templates of src/constants/interfaces.ts are not modelled.
- The compiled bundle dist/index.js is not modelled. Its `getApiSchemas` omits the sort; this model follows src.
- ApiSchemas.GetApiSchemas: `localeCompare(…, "en")` collation is an abstract comparator. Sortedness is proved for any total comparator. The order of ties, and the stability of the engine's sort, are not modelled.
- ApiSchemas.ListingOrderIrrelevant: the result is shown to be independent of the listing order only for an antisymmetric comparator. Collation can rank two different strings as equal, and the result order for such ties is not modelled.
- Attributes.IsNullable: `required` is `Option<bool>`. A JSON value of another type (a string, a number) behaves like `false` in the source, and that case is collapsed into `Some(false)`.
- Types: the template-literal type `${string}.${string}` of component references is not enforced. References are plain strings, and the lemmas about them state their preconditions explicitly.
- Routes.Entries: a schema `kind` outside the two known values takes the single-type branch in the source. The model has only the two kinds.
- Attribute options that no core function reads are not modelled: `private`, `minLength`, `maxLength`, `regex`, `options`, and `allowedTypes` beyond its presence.
- `Object.entries` order is the order of the `attributes` sequence. The integer-like-keys-first rule of JavaScript objects is not modelled.
- Attributes.FixedKinds: the custom-field lookup `customFields[field] || "unknown"` (src/parse-attribute.ts:112) sees only the map's own keys. In the source, a field named after an `Object.prototype` member (`constructor`, `toString`) finds the inherited function, which is truthy and is written in place of "unknown".
