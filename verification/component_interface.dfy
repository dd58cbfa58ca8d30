/**
 `createComponentInterface` (src/create-component-interface.ts): the
 interface of a component, from the path of its schema file and the schema
 already parsed from it. The configured date type and the custom-field map
 are parameters.
 */
module ComponentInterface {
  import opened Wrappers
  import opened Text
  import opened Casing
  import opened Types
  import opened Attributes
  import ApiInterface

  /** `schemaPath.split(/[/.]/g)` */
  function PathSegments(schemaPath: string): seq<string> {
    Split(schemaPath, {'/', '.'})
  }

  /** `${segments.at(-3)}.${segments.at(-2)}`: category folder and file name, joined by a dot. */
  function FullName(schemaPath: string): string {
    var segments := PathSegments(schemaPath);
    Interpolate(AtFromEnd(segments, 3)) + "." + Interpolate(AtFromEnd(segments, 2))
  }

  /** `titleCase(fullName.split(".")[1])` */
  function InterfaceName(schemaPath: string): string {
    TitleCaseOrEmpty(ElementAt(Split(FullName(schemaPath), {'.'}), 1))
  }

  function Header(schemaPath: string): string {
    "\ninterface " + InterfaceName(schemaPath) + " {\n__component?: '" + FullName(schemaPath) + "'\nid?: number;\n"
  }

  /** `createComponentInterface(schemaPath)` with the file's content already parsed. */
  function CreateComponentInterface(schemaPath: string, schema: ComponentSchema, dateType: string,
                                    customFields: map<string, string>): (r: string)
    ensures StartsWith(r, "\ninterface " + InterfaceName(schemaPath) + " {\n__component?: '"
                          + FullName(schemaPath) + "'\nid?: number;\n")
    ensures EndsWith(r, ";\n}\n")
  {
    var header := Header(schemaPath);
    var lines := AttributeLines(schema.attributes, dateType, customFields);
    AttributeLinesShape(schema.attributes, dateType, customFields);
    HeaderEnds(schemaPath);
    ApiInterface.Closing(header, lines, "");
    header + lines + "" + "}\n"
  }

  lemma HeaderEnds(schemaPath: string)
    ensures EndsWith(Header(schemaPath), ";\n")
  {
    var tail := "'\nid?: number;\n";
    var front := "\ninterface " + InterfaceName(schemaPath) + " {\n__component?: '" + FullName(schemaPath);
    assert Header(schemaPath) == front + tail;
    assert tail[|tail| - 2..] == ";\n";
    SuffixOfAppend(front, tail, ";\n");
  }

  /** The interface is the header, the property lines in entry order and the closing brace. */
  lemma Layout(schemaPath: string, schema: ComponentSchema, dateType: string, customFields: map<string, string>)
    ensures CreateComponentInterface(schemaPath, schema, dateType, customFields)
         == Header(schemaPath) + AttributeLines(schema.attributes, dateType, customFields) + "}\n"
  {
    var lines := AttributeLines(schema.attributes, dateType, customFields);
    assert Header(schemaPath) + lines + "" == Header(schemaPath) + lines;
  }

  /** The body lists the attributes in entry order. */
  lemma AttributesInOrder(schemaPath: string, schema: ComponentSchema, xs: seq<AttributeEntry>,
                          ys: seq<AttributeEntry>, dateType: string, customFields: map<string, string>)
    requires schema.attributes == xs + ys
    ensures CreateComponentInterface(schemaPath, schema, dateType, customFields)
         == Header(schemaPath) + AttributeLines(xs, dateType, customFields)
            + AttributeLines(ys, dateType, customFields) + "}\n"
  {
    Layout(schemaPath, schema, dateType, customFields);
    ApiInterface.AttributesInOrderLines(Header(schemaPath), xs, ys, dateType, customFields, "");
    var h, a, b := Header(schemaPath), AttributeLines(xs, dateType, customFields), AttributeLines(ys, dateType, customFields);
    assert h + (a + b) + "" + "}\n" == h + (a + b) + "}\n";
    assert h + a + b + "" + "}\n" == h + a + b + "}\n";
  }

  /** Password attributes leave the interface unchanged. */
  lemma PasswordsIgnored(schemaPath: string, schema: ComponentSchema, xs: seq<AttributeEntry>, name: string,
                         required: Option<bool>, ys: seq<AttributeEntry>, dateType: string,
                         customFields: map<string, string>)
    requires schema.attributes == xs + [(name, StringAttribute(Password, required))] + ys
    ensures CreateComponentInterface(schemaPath, schema, dateType, customFields)
         == CreateComponentInterface(schemaPath, schema.(attributes := xs + ys), dateType, customFields)
  {
    PasswordContributesNothing(xs, name, required, ys, dateType, customFields);
  }

  /** The interface name is always the title-cased second part of the full name. */
  lemma NameIsSecondPart(schemaPath: string)
    ensures InterfaceName(schemaPath) == TitleCase(Interpolate(AtFromEnd(PathSegments(schemaPath), 2)))
  {
    var segments := PathSegments(schemaPath);
    var a := Interpolate(AtFromEnd(segments, 3));
    var b := Interpolate(AtFromEnd(segments, 2));
    SplitPiecesFree(schemaPath, {'/', '.'});
    assert Free("undefined", {'.'});
    assert Free(a, {'.'});
    assert Free(b, {'.'});
    SplitAcross(a, '.', b, {'.'});
    SplitFree(a, {'.'});
    SplitFree(b, {'.'});
    assert FullName(schemaPath) == a + ['.'] + b;
    assert Split(FullName(schemaPath), {'.'}) == [a, b];
  }

  /** A schema file `<dir>/<category>/<name>.json` is the component `category.name`, named after `name`. */
  lemma NamesOfPath(dir: string, category: string, name: string)
    requires Free(category, {'/', '.'}) && Free(name, {'/', '.'})
    ensures FullName(dir + "/" + category + "/" + name + ".json") == category + "." + name
    ensures InterfaceName(dir + "/" + category + "/" + name + ".json") == TitleCase(name)
  {
    var path := dir + "/" + category + "/" + name + ".json";
    assert path == (dir + ['/'] + category) + ['/'] + name + ['.'] + "json";
    assert Free("json", {'/', '.'});
    SplitLastTwo(dir + ['/'] + category, '/', name, '.', "json", {'/', '.'});
    SplitAcross(dir, '/', category, {'/', '.'});
    SplitFree(category, {'/', '.'});
    var segments := PathSegments(path);
    assert segments == Split(dir, {'/', '.'}) + [category] + [name, "json"];
    assert AtFromEnd(segments, 3) == Some(category);
    assert AtFromEnd(segments, 2) == Some(name);
    NameIsSecondPart(path);
  }

  /**
   A component attribute that references `category.name` is typed with the
   very interface generated for `<dir>/<category>/<name>.json`.
   */
  lemma ReferenceMatchesInterface(dir: string, category: string, name: string, repeatable: bool,
                                  required: Option<bool>, dateType: string, customFields: map<string, string>)
    requires Free(category, {'/', '.'}) && Free(name, {'/', '.'})
    ensures var path := dir + "/" + category + "/" + name + ".json";
            var ref := FullName(path);
            TypeExpression(ComponentAttribute(ref, repeatable, required), dateType, customFields)
              == "Components." + InterfaceName(path) + (if repeatable then "[]" else "")
  {
    NamesOfPath(dir, category, name);
    var ref := category + "." + name;
    assert Free(name, {'.'});
    SplitAcross(category, '.', name, {'.'});
    SplitFree(name, {'.'});
    assert ref == category + ['.'] + name;
    assert Last(Split(ref, {'.'})) == name;
    ComponentType(ref, repeatable, required, dateType, customFields);
  }

  lemma MainHeaderSegmentsFree()
    ensures Free("header", {'/', '.'}) && Free("main-header", {'/', '.'})
  {
  }

  lemma MainHeaderPathParts(path: string)
    requires path == "src/components/header/main-header.json"
    ensures path == "src/components" + "/" + "header" + "/" + "main-header" + ".json"
  {
  }

  lemma MainHeaderFullName(category: string, name: string)
    requires category == "header" && name == "main-header"
    ensures category + "." + name == "header.main-header"
  {
  }

  /** `NamesOfPath` for a path given as a whole. */
  lemma NamesOfGivenPath(path: string, category: string, name: string)
    requires Free(category, {'/', '.'}) && Free(name, {'/', '.'})
    requires path == "src/components" + "/" + category + "/" + name + ".json"
    ensures FullName(path) == category + "." + name
    ensures InterfaceName(path) == TitleCase(name)
  {
    NamesOfPath("src/components", category, name);
  }

  /** "src/components/header/main-header.json" is `header.main-header`, interface `MainHeader`. */
  lemma MainHeaderExample(path: string)
    requires path == "src/components/header/main-header.json"
    ensures FullName(path) == "header.main-header"
    ensures InterfaceName(path) == "MainHeader"
  {
    MainHeaderPathParts(path);
    MainHeaderSegmentsFree();
    NamesOfGivenPath(path, "header", "main-header");
    MainHeaderFullName("header", "main-header");
    TitleCaseMainHeader();
  }
}
