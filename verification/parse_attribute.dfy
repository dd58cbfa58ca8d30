/**
 `isNullable` (src/utils/is-nullable.ts) and `parseAttribute`
 (src/parse-attribute.ts): one attribute definition becomes one property
 line of a generated interface. The configured date type and the map built
 by `getCustomFields` are parameters.
 */
module Attributes {
  import opened Wrappers
  import opened Text
  import opened Casing
  import opened Types

  /** The one relation target that lives in the `Strapi` namespace. */
  const UsersPermissionsRole := "plugin::users-permissions.role"

  /** The `required` flag as the JSON object carries it; a relation has none. */
  function RequiredFlag(a: Attribute): Option<bool> {
    if a.RelationAttribute? then None else a.required
  }

  /** `isNullable(attribute)` */
  function IsNullable(a: Attribute): (r: bool)
    ensures RequiredFlag(a).None? ==> r
    ensures RequiredFlag(a) == Some(true) ==> r
    ensures RequiredFlag(a) == Some(false) ==> !r
    ensures a.RelationAttribute? ==> r
  {
    !RequiredFlag(a).Some? || RequiredFlag(a).value == true
  }

  /** `titleCase(s.split(<delims>).pop())`: the title-cased last segment of a reference. */
  function LastSegmentName(s: string, delims: set<char>): string {
    TitleCase(Last(Split(s, delims)))
  }

  /** `Components.<TitleCase of the part after the last dot>` */
  function ComponentTypeName(ref: string): string {
    "Components." + LastSegmentName(ref, {'.'})
  }

  /** An enumeration value as a string-literal type. */
  function Quote(v: string): string {
    "'" + v + "'"
  }

  function QuoteAll(values: seq<string>): seq<string> {
    Image(Quote, values)
  }

  function ComponentTypeNames(refs: seq<string>): seq<string> {
    Image(ComponentTypeName, refs)
  }

  /** A title-cased name after a non-bracket prefix never ends with "[]". */
  lemma NoArraySuffix(prefix: string, s: string)
    requires |prefix| > 0 && prefix[|prefix| - 1] != ']'
    ensures !EndsWith(prefix + TitleCase(s), "[]")
    ensures EndsWith(prefix + TitleCase(s) + "[]", "[]")
  {
    TitleCaseLetters(s);
    var name := TitleCase(s);
    var t := prefix + name;
    if |name| > 0 {
      assert t[|t| - 1] == name[|name| - 1];
    } else {
      assert t == prefix;
    }
    assert (t + "[]")[|t + "[]"| - 2..] == "[]";
  }

  /** `relation.endsWith("ToMany")` holds for exactly the two to-many cardinalities. */
  lemma ToManyNames(k: RelationKind)
    ensures EndsWith(k.Name(), "ToMany") <==> (k == OneToMany || k == ManyToMany)
  {
    match k
    case OneToOne =>
      assert "oneToOne"[2] != "ToMany"[0];
    case OneToMany =>
      assert "oneToMany"[3..] == "ToMany";
    case ManyToOne =>
      assert "manyToOne"[3] != "ToMany"[0];
    case ManyToMany =>
      assert "manyToMany"[4..] == "ToMany";
  }

  /**
   The type written after the key, for every kind but `password` (which
   `parseAttribute` drops before a type is chosen).
   */
  function TypeExpression(a: Attribute, dateType: string, customFields: map<string, string>): string {
    match a
    case RelationAttribute(target, relation) =>
      var base := (if target == UsersPermissionsRole then "Strapi" else "Api") + "."
                  + LastSegmentName(target, {':', '.'});
      if EndsWith(relation.Name(), "ToMany") then base + "[]" else base
    case ComponentAttribute(ref, repeatable, _) =>
      var base := ComponentTypeName(ref);
      if repeatable then base + "[]" else base
    case DynamicZoneAttribute(refs, _) =>
      "(" + Join(ComponentTypeNames(refs), " | ") + ")[]"
    case MediaAttribute(multiple, _, _) =>
      if multiple then "Strapi.Media[]" else "Strapi.Media"
    case EnumAttribute(values, _) =>
      Join(QuoteAll(values), " | ")
    case StringAttribute(_, _) => "string"
    case JsonAttribute(_) => "any"
    case NumberAttribute(_, _) => "number"
    case DateAttribute(_, _) => dateType
    case BooleanAttribute(_) => "boolean"
    case CustomFieldAttribute(field, _) =>
      if field in customFields && customFields[field] != "" then customFields[field] else "unknown"
    case UnrecognisedAttribute(_) => "unknown"
  }

  /**
   A relation points into `Strapi` for the users-permissions role and into
   `Api` otherwise, and is an array exactly for the to-many cardinalities.
   */
  lemma RelationType(target: string, relation: RelationKind, dateType: string, customFields: map<string, string>)
    ensures var r := TypeExpression(RelationAttribute(target, relation), dateType, customFields);
            && StartsWith(r, if target == UsersPermissionsRole then "Strapi." else "Api.")
            && (EndsWith(r, "[]") <==> (relation == OneToMany || relation == ManyToMany))
  {
    var ns := if target == UsersPermissionsRole then "Strapi" else "Api";
    var prefix := if target == UsersPermissionsRole then "Strapi." else "Api.";
    assert ns + "." == prefix;
    var last := Last(Split(target, {':', '.'}));
    var base := prefix + TitleCase(last);
    var r := TypeExpression(RelationAttribute(target, relation), dateType, customFields);
    assert r == if EndsWith(relation.Name(), "ToMany") then base + "[]" else base;
    NoArraySuffix(prefix, last);
    ToManyNames(relation);
    assert base[..|prefix|] == prefix;
    PrefixOfAppend(base, "[]", prefix);
  }

  /**
   The related type is named after the target's last ':' or '.' segment,
   title-cased: `api::article.article` is `Api.Article`.
   */
  lemma RelationTargetName(p: string, c: char, seg: string, relation: RelationKind, dateType: string,
                           customFields: map<string, string>)
    requires c in {':', '.'} && Free(seg, {':', '.'})
    ensures var target := p + [c] + seg;
            TypeExpression(RelationAttribute(target, relation), dateType, customFields)
            == (if target == UsersPermissionsRole then "Strapi." else "Api.") + TitleCase(seg)
               + (if relation == OneToMany || relation == ManyToMany then "[]" else "")
  {
    var target := p + [c] + seg;
    RelationShape(target, relation, dateType, customFields);
    LastSegmentOf(p, c, seg, {':', '.'});
  }

  /** The relation's type, in terms of the title-cased last segment of its target. */
  lemma RelationShape(target: string, relation: RelationKind, dateType: string, customFields: map<string, string>)
    ensures TypeExpression(RelationAttribute(target, relation), dateType, customFields)
         == (if target == UsersPermissionsRole then "Strapi." else "Api.") + LastSegmentName(target, {':', '.'})
            + (if relation == OneToMany || relation == ManyToMany then "[]" else "")
  {
    var prefix := if target == UsersPermissionsRole then "Strapi." else "Api.";
    var ns := if target == UsersPermissionsRole then "Strapi" else "Api";
    assert ns + "." == prefix;
    var base := prefix + LastSegmentName(target, {':', '.'});
    ToManyNames(relation);
    assert base + "" == base;
  }

  /** The last segment of `p`, a delimiter, then a delimiter-free `seg`, is `seg`. */
  lemma LastSegmentOf(p: string, c: char, seg: string, delims: set<char>)
    requires c in delims && Free(seg, delims)
    ensures Last(Split(p + [c] + seg, delims)) == seg
  {
    SplitAcross(p, c, seg, delims);
    SplitFree(seg, delims);
  }

  /** A many-to-many relation to the users-permissions role is `Strapi.Role[]`. */
  lemma RoleExample()
    ensures TypeExpression(RelationAttribute(UsersPermissionsRole, ManyToMany), "string", map[]) == "Strapi.Role[]"
  {
    RoleTarget(UsersPermissionsRole, ManyToMany, "string", map[]);
  }

  lemma RoleTarget(target: string, relation: RelationKind, dateType: string, customFields: map<string, string>)
    requires target == UsersPermissionsRole && relation == ManyToMany
    ensures TypeExpression(RelationAttribute(target, relation), dateType, customFields) == "Strapi.Role[]"
  {
    var name := LastSegmentName(target, {':', '.'});
    RoleRelationShape(target, relation, dateType, customFields);
    RoleName(target);
    RoleText(name);
  }

  lemma RoleText(name: string)
    requires name == "Role"
    ensures "Strapi." + name + "[]" == "Strapi.Role[]"
  {
  }

  lemma RoleRelationShape(target: string, relation: RelationKind, dateType: string, customFields: map<string, string>)
    requires target == UsersPermissionsRole && relation == ManyToMany
    ensures TypeExpression(RelationAttribute(target, relation), dateType, customFields)
         == "Strapi." + LastSegmentName(target, {':', '.'}) + "[]"
  {
    RelationShape(target, relation, dateType, customFields);
  }

  lemma RoleName(target: string)
    requires target == UsersPermissionsRole
    ensures LastSegmentName(target, {':', '.'}) == "Role"
  {
    RoleSegment(target);
    TitleCaseRole();
  }

  lemma RoleSegment(target: string)
    requires target == UsersPermissionsRole
    ensures Last(Split(target, {':', '.'})) == "role"
  {
    var p := "plugin::users-permissions";
    var seg := "role";
    assert Free(seg, {':', '.'});
    assert target == p + ['.'] + seg;
    LastSegmentOf(p, '.', seg, {':', '.'});
  }

  /** A component is named in `Components` and is an array exactly when repeatable. */
  lemma ComponentType(ref: string, repeatable: bool, required: Option<bool>, dateType: string,
                      customFields: map<string, string>)
    ensures var r := TypeExpression(ComponentAttribute(ref, repeatable, required), dateType, customFields);
            && r == (if repeatable then ComponentTypeName(ref) + "[]" else ComponentTypeName(ref))
            && StartsWith(r, "Components.")
            && (EndsWith(r, "[]") <==> repeatable)
  {
    var base := ComponentTypeName(ref);
    NoArraySuffix("Components.", Last(Split(ref, {'.'})));
    assert (base + "[]")[..|"Components."|] == base[..|"Components."|];
  }

  /** A dynamic zone is always a parenthesised array of component names. */
  lemma DynamicZoneType(refs: seq<string>, required: Option<bool>, dateType: string, customFields: map<string, string>)
    ensures var r := TypeExpression(DynamicZoneAttribute(refs, required), dateType, customFields);
            StartsWith(r, "(") && EndsWith(r, ")[]")
  {
    var r := "(" + Join(ComponentTypeNames(refs), " | ") + ")[]";
    assert r[|r| - 3..] == ")[]";
  }

  /** Media is `Strapi.Media`, an array exactly when `multiple`. */
  lemma MediaTypeExpression(multiple: bool, allowed: seq<MediaType>, required: Option<bool>, dateType: string,
                            customFields: map<string, string>)
    ensures var r := TypeExpression(MediaAttribute(multiple, allowed, required), dateType, customFields);
            && r == (if multiple then "Strapi.Media[]" else "Strapi.Media")
            && StartsWith(r, "Strapi.Media") && (EndsWith(r, "[]") <==> multiple)
  {
    assert "Strapi.Media"[10..] != "[]";
    assert "Strapi.Media[]"[12..] == "[]";
  }

  /** The fixed part of the mapping table, and the fallbacks to "unknown". */
  lemma FixedKinds(a: Attribute, dateType: string, customFields: map<string, string>)
    ensures a.StringAttribute? ==> TypeExpression(a, dateType, customFields) == "string"
    ensures a.JsonAttribute? ==> TypeExpression(a, dateType, customFields) == "any"
    ensures a.NumberAttribute? ==> TypeExpression(a, dateType, customFields) == "number"
    ensures a.DateAttribute? ==> TypeExpression(a, dateType, customFields) == dateType
    ensures a.BooleanAttribute? ==> TypeExpression(a, dateType, customFields) == "boolean"
    ensures a.UnrecognisedAttribute? ==> TypeExpression(a, dateType, customFields) == "unknown"
    ensures a.CustomFieldAttribute? ==>
              (a.customField in customFields && customFields[a.customField] != ""
               ==> TypeExpression(a, dateType, customFields) == customFields[a.customField])
    ensures a.CustomFieldAttribute? ==>
              (a.customField !in customFields || customFields[a.customField] == ""
               ==> TypeExpression(a, dateType, customFields) == "unknown")
  {
  }

  /** No enumeration value gives the empty type; one value gives that value quoted. */
  lemma EnumSmall(values: seq<string>, required: Option<bool>, dateType: string, customFields: map<string, string>)
    ensures |values| == 0 ==> TypeExpression(EnumAttribute(values, required), dateType, customFields) == ""
    ensures |values| == 1 ==> TypeExpression(EnumAttribute(values, required), dateType, customFields) == "'" + values[0] + "'"
  {
  }

  /** `parseAttribute(name, attribute)` */
  function ParseAttribute(name: string, a: Attribute, dateType: string, customFields: map<string, string>): (r: string)
    ensures a.IsPassword() ==> r == ""
    ensures !a.IsPassword() && IsNullable(a) ==>
              r == name + "?: null |  " + TypeExpression(a, dateType, customFields) + ";\n"
    ensures !a.IsPassword() && !IsNullable(a) ==>
              r == name + "?: " + TypeExpression(a, dateType, customFields) + ";\n"
  {
    var key := name + "?:";
    var key := if IsNullable(a) then key + " null | " else key;
    var t := TypeExpression(a, dateType, customFields);
    if a.IsPassword() then "" else key + " " + t + ";\n"
  }

  /** `parseAttribute` over the entries, in entry order. */
  function PropertyLines(entries: seq<AttributeEntry>, dateType: string, customFields: map<string, string>): seq<string> {
    Image(PropertyLine(dateType, customFields), entries)
  }

  /** `parseAttribute` as a function of one entry. */
  function PropertyLine(dateType: string, customFields: map<string, string>): AttributeEntry -> string {
    (e: AttributeEntry) => ParseAttribute(e.0, e.1, dateType, customFields)
  }

  /** The body of an interface: the property lines appended one after the other. */
  function AttributeLines(entries: seq<AttributeEntry>, dateType: string, customFields: map<string, string>): string {
    Join(PropertyLines(entries, dateType, customFields), "")
  }

  /** Every non-empty property line, and so every non-empty body, ends with ";\n". */
  lemma {:induction false} LinesEnd(lines: seq<string>)
    requires forall i :: 0 <= i < |lines| ==> lines[i] == "" || EndsWith(lines[i], ";\n")
    ensures Join(lines, "") == "" || EndsWith(Join(lines, ""), ";\n")
    decreases |lines|
  {
    if |lines| > 1 {
      LinesEnd(lines[1..]);
      var rest := Join(lines[1..], "");
      var all := lines[0] + "" + rest;
      assert all == Join(lines, "");
      if rest == "" {
        assert all == lines[0];
      } else {
        assert all[|all| - 2..] == rest[|rest| - 2..];
      }
    }
  }

  /** A body is empty or ends with ";\n"; a body of passwords only is empty. */
  lemma AttributeLinesShape(entries: seq<AttributeEntry>, dateType: string, customFields: map<string, string>)
    ensures var r := AttributeLines(entries, dateType, customFields);
            r == "" || EndsWith(r, ";\n")
    ensures (forall i :: 0 <= i < |entries| ==> entries[i].1.IsPassword())
              ==> AttributeLines(entries, dateType, customFields) == ""
  {
    var lines := PropertyLines(entries, dateType, customFields);
    forall i | 0 <= i < |lines| ensures lines[i] == "" || EndsWith(lines[i], ";\n") {
      var t := TypeExpression(entries[i].1, dateType, customFields);
      if !entries[i].1.IsPassword() {
        assert (lines[i])[|lines[i]| - 2..] == ";\n";
      }
    }
    LinesEnd(lines);
    if forall i :: 0 <= i < |entries| ==> entries[i].1.IsPassword() {
      AllEmpty(lines);
    }
  }

  lemma {:induction false} AllEmpty(lines: seq<string>)
    requires forall i :: 0 <= i < |lines| ==> lines[i] == ""
    ensures Join(lines, "") == ""
    decreases |lines|
  {
    if |lines| > 1 {
      AllEmpty(lines[1..]);
    }
  }

  /** The lines of two lists of entries are the lines of the first followed by those of the second. */
  lemma AttributeLinesAppend(xs: seq<AttributeEntry>, ys: seq<AttributeEntry>,
                             dateType: string, customFields: map<string, string>)
    ensures AttributeLines(xs + ys, dateType, customFields)
         == AttributeLines(xs, dateType, customFields) + AttributeLines(ys, dateType, customFields)
  {
    ImageAppend(PropertyLine(dateType, customFields), xs, ys);
    ConcatAppend(PropertyLines(xs, dateType, customFields), PropertyLines(ys, dateType, customFields));
  }

  /** A password attribute contributes nothing, wherever it appears. */
  lemma PasswordContributesNothing(xs: seq<AttributeEntry>, name: string, required: Option<bool>,
                                   ys: seq<AttributeEntry>, dateType: string, customFields: map<string, string>)
    ensures AttributeLines(xs + [(name, StringAttribute(Password, required))] + ys, dateType, customFields)
         == AttributeLines(xs + ys, dateType, customFields)
  {
    var pw: seq<AttributeEntry> := [(name, StringAttribute(Password, required))];
    AttributeLinesAppend(xs + pw, ys, dateType, customFields);
    AttributeLinesAppend(xs, pw, dateType, customFields);
    AttributeLinesAppend(xs, ys, dateType, customFields);
    assert ParseAttribute(name, StringAttribute(Password, required), dateType, customFields) == "";
    assert PropertyLines(pw, dateType, customFields) == [""];
    var ax, ay := AttributeLines(xs, dateType, customFields), AttributeLines(ys, dateType, customFields);
    assert AttributeLines(pw, dateType, customFields) == "";
    assert AttributeLines(xs + pw, dateType, customFields) == ax;
  }

  /** Enumeration values keep their order: the type of a concatenation joins the two types. */
  lemma EnumOrder(xs: seq<string>, ys: seq<string>, required: Option<bool>, dateType: string,
                  customFields: map<string, string>)
    requires |xs| > 0 && |ys| > 0
    ensures TypeExpression(EnumAttribute(xs + ys, required), dateType, customFields)
         == TypeExpression(EnumAttribute(xs, required), dateType, customFields) + " | "
            + TypeExpression(EnumAttribute(ys, required), dateType, customFields)
  {
    ImageAppend(Quote, xs, ys);
    JoinAppend(QuoteAll(xs), QuoteAll(ys), " | ");
  }

  /** Dynamic-zone members keep their order: the union of a concatenation joins the two unions. */
  lemma DynamicZoneOrder(xs: seq<string>, ys: seq<string>, required: Option<bool>, dateType: string,
                         customFields: map<string, string>)
    requires |xs| > 0 && |ys| > 0
    ensures TypeExpression(DynamicZoneAttribute(xs + ys, required), dateType, customFields)
         == "(" + Join(ComponentTypeNames(xs), " | ") + " | " + Join(ComponentTypeNames(ys), " | ") + ")[]"
  {
    var names := ComponentTypeNames(xs + ys);
    assert TypeExpression(DynamicZoneAttribute(xs + ys, required), dateType, customFields)
        == "(" + Join(names, " | ") + ")[]";
    ImageAppend(ComponentTypeName, xs, ys);
    JoinAppend(ComponentTypeNames(xs), ComponentTypeNames(ys), " | ");
  }

  /** The documented example of a nullable media property. */
  lemma MediaExample()
    ensures ParseAttribute("thumbnail", MediaAttribute(false, [Images], None), "string", map[])
         == "thumbnail?: null |  Strapi.Media;\n"
  {
    MediaLine("thumbnail", MediaAttribute(false, [Images], None));
  }

  lemma MediaLine(name: string, a: Attribute)
    requires name == "thumbnail" && a == MediaAttribute(false, [Images], None)
    ensures ParseAttribute(name, a, "string", map[]) == "thumbnail?: null |  Strapi.Media;\n"
  {
    assert IsNullable(a);
    var t := TypeExpression(a, "string", map[]);
    assert t == "Strapi.Media";
    MediaLineText(name, t);
  }

  lemma MediaLineText(name: string, t: string)
    requires name == "thumbnail" && t == "Strapi.Media"
    ensures name + "?: null |  " + t + ";\n" == "thumbnail?: null |  Strapi.Media;\n"
  {
  }
}
