/**
 The users-permissions declarations (src/constants/user-permissions.ts and
 src/get-users-interface.ts): the Role, Permission and User interfaces added
 to the `Strapi` namespace when the plugin is enabled. The User interface is
 generated from the project's extension schema when that file exists, and is
 the built-in template otherwise. Whether the file exists, and its parsed
 content, is the parameter `extension`.
 */
module UserPermissions {
  import opened Wrappers
  import opened Text
  import opened Casing
  import opened Types
  import ApiInterface
  import Attributes

  /** The three timestamp members, typed `t`, each closed by `end` (nothing, "," or ";"). */
  function Timestamps(t: string, end: string): string {
    "    createdAt?: " + t + end + "\n    updatedAt?: " + t + end + "\n    publishedAt?: " + t + end + "\n"
  }

  const RoleHead := "\n  interface Role {\n    id?: number,\n    documentId?: string\n    name?: string\n    description?: string\n    type?: string\n"
  const RoleTail := "    permissions?: Strapi.Permission[]\n  };\n"

  const PermissionHead := "\n  interface Permission {\n    id?: number,\n    documentId?: string,\n    action?: string,\n"
  const PermissionTail := "    role?: Strapi.Role,\n  };\n"

  const UserHead := "\n  interface User {\n    id?: number;\n    documentId?: string;\n    username?: string;\n    email?: string;\n    provider?: string;\n    confirmed?: boolean;\n    blocked?: boolean;\n"
  const UserTail := "    role?: Strapi.Role;\n  }\n"

  /** The Role template: its timestamps are always `string`. */
  function Role(): string {
    RoleHead + Timestamps("string", "") + RoleTail
  }

  /** The Permission template, with timestamps of the configured date type. */
  function Permission(dateType: string): string {
    PermissionHead + Timestamps(dateType, ",") + PermissionTail
  }

  /** The built-in User template, with timestamps of the configured date type. */
  function User(dateType: string): string {
    UserHead + Timestamps(dateType, ";") + UserTail
  }

  const ExtensionsDir := "/src/extensions/users-permissions/content-types"

  /** `${strapiDir}/src/extensions/users-permissions/content-types/user/schema.json` */
  function UserSchemaPath(strapiDir: string): string {
    strapiDir + ExtensionsDir + "/user/schema.json"
  }

  /**
   `getUsersInterface()`: nothing when the extension schema does not exist,
   otherwise the API interface generated from it.
   */
  function GetUsersInterface(strapiDir: string, extension: Option<TypeSchema>, dateType: string,
                             customFields: map<string, string>): (r: Option<string>)
    ensures r.None? <==> extension.None?
    ensures r.Some? ==>
              r.value == ApiInterface.Header("User") + Attributes.AttributeLines(extension.value.attributes, dateType, customFields)
                         + (if extension.value.localized then ApiInterface.LocaleLines("User") else "") + "}\n"
  {
    match extension
    case None => None
    case Some(schema) =>
      UserSchemaIsNamedUser(strapiDir);
      ApiInterface.Layout(UserSchemaPath(strapiDir), schema, dateType, customFields);
      Some(ApiInterface.CreateApiInterface(UserSchemaPath(strapiDir), schema, dateType, customFields))
  }

  /** `userPermissionsStrapiInterfaces` */
  function UserPermissionsInterfaces(usersEnabled: bool, strapiDir: string, extension: Option<TypeSchema>,
                                     dateType: string, customFields: map<string, string>): (r: seq<string>)
    ensures !usersEnabled ==> r == []
    ensures usersEnabled ==> |r| == 3 && r[0] == Role() && r[1] == Permission(dateType)
    ensures usersEnabled && extension.None? ==> r[2] == User(dateType)
    ensures usersEnabled && extension.Some? ==>
              r[2] == GetUsersInterface(strapiDir, extension, dateType, customFields).value
  {
    if !usersEnabled then []
    else
      var generated := GetUsersInterface(strapiDir, extension, dateType, customFields);
      // `generated || user`: a generated interface is never empty, hence truthy.
      [Role(), Permission(dateType), if generated.Some? && generated.value != "" then generated.value else User(dateType)]
  }

  /** The extension schema's folder is `user`, so the generated interface is named `User`, like the template. */
  lemma UserSchemaIsNamedUser(strapiDir: string)
    ensures ApiInterface.InterfaceName(UserSchemaPath(strapiDir)) == "User"
  {
    var file := "schema.json";
    var folder := "user";
    assert Free(folder, {'/'}) && Free(file, {'/'});
    assert UserSchemaPath(strapiDir) == (strapiDir + ExtensionsDir) + "/" + folder + "/" + file;
    ApiInterface.NameFromFolder(strapiDir + ExtensionsDir, folder, file);
    TitleCaseUser();
  }

  /** The timestamp block determines its type: different date types give different blocks. */
  lemma TimestampsDetermineType(t1: string, t2: string, end: string)
    requires Timestamps(t1, end) == Timestamps(t2, end)
    ensures t1 == t2
  {
    var p := "    createdAt?: ";
    var a := Timestamps(t1, end);
    assert |a| == |Timestamps(t2, end)|;
    assert a[|p|..|p| + |t1|] == t1;
    assert Timestamps(t2, end)[|p|..|p| + |t2|] == t2;
  }

  /** Permission carries the configured date type, in its timestamp block. */
  lemma PermissionUsesDateType(dateType: string)
    ensures OccursAt(Permission(dateType), Timestamps(dateType, ","), |PermissionHead|)
  {
    var a := PermissionHead + Timestamps(dateType, ",");
    assert Permission(dateType) == a + PermissionTail;
    assert a[|PermissionHead|..] == Timestamps(dateType, ",");
  }

  /** The built-in User carries the configured date type, in its timestamp block. */
  lemma UserUsesDateType(dateType: string)
    ensures OccursAt(User(dateType), Timestamps(dateType, ";"), |UserHead|)
  {
    var a := UserHead + Timestamps(dateType, ";");
    assert User(dateType) == a + UserTail;
    assert a[|UserHead|..] == Timestamps(dateType, ";");
  }

  /** Role's timestamps are `string` whatever the configured date type. */
  lemma RoleUsesString()
    ensures OccursAt(Role(), Timestamps("string", ""), |RoleHead|)
  {
    var a := RoleHead + Timestamps("string", "");
    assert Role() == a + RoleTail;
    assert a[|RoleHead|..] == Timestamps("string", "");
  }

  /** Different date types give different Permission and User templates. */
  lemma TemplatesFollowDateType(d1: string, d2: string)
    requires d1 != d2
    ensures Permission(d1) != Permission(d2)
    ensures User(d1) != User(d2)
  {
    if Permission(d1) == Permission(d2) {
      TimestampSliceOf(PermissionHead, PermissionTail, d1, d2, ",");
    }
    if User(d1) == User(d2) {
      TimestampSliceOf(UserHead, UserTail, d1, d2, ";");
    }
  }

  /** Equal templates around the timestamp block have equal blocks. */
  lemma TimestampSliceOf(head: string, tail: string, d1: string, d2: string, end: string)
    requires head + Timestamps(d1, end) + tail == head + Timestamps(d2, end) + tail
    ensures d1 == d2
  {
    var s := head + Timestamps(d1, end) + tail;
    assert |Timestamps(d1, end)| == |Timestamps(d2, end)|;
    assert s[|head|..|head| + |Timestamps(d1, end)|] == Timestamps(d1, end);
    assert (head + Timestamps(d2, end) + tail)[|head|..|head| + |Timestamps(d2, end)|] == Timestamps(d2, end);
    TimestampsDetermineType(d1, d2, end);
  }
}
