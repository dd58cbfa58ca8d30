/**
 `createApiInterface` (src/create-api-interface.ts): the interface of a
 collection or single type, from the path of its schema file and the schema
 already parsed from it. The configured date type and the custom-field map
 are parameters.
 */
module ApiInterface {
  import opened Wrappers
  import opened Text
  import opened Casing
  import opened Types
  import opened Attributes

  /** `titleCase(schemaPath.split("/").at(-2))`: the folder that holds `schema.json`. */
  function InterfaceName(schemaPath: string): string {
    TitleCaseOrEmpty(AtFromEnd(Split(schemaPath, {'/'}), 2))
  }

  function Header(name: string): string {
    "\ninterface " + name + " {\n id?: number;\n documentId?: string;\n"
  }

  /** The two members added to a localized type. */
  function LocaleLines(name: string): string {
    "\nlocale: string;\nlocalizations?: { data: " + name + "[] }"
  }

  /** A header ending in ";\n", property lines, optional extra members and the closing brace. */
  lemma Closing(header: string, lines: string, extra: string)
    requires EndsWith(header, ";\n")
    requires lines == "" || EndsWith(lines, ";\n")
    ensures var r := header + lines + extra + "}\n";
            && StartsWith(r, header)
            && EndsWith(r, extra + "}\n")
            && (extra == "" ==> EndsWith(r, ";\n}\n"))
  {
    var r := header + lines + extra + "}\n";
    assert r == header + (lines + extra + "}\n");
    PrefixOfAppend(header, lines + extra + "}\n", header);
    assert r == (header + lines) + (extra + "}\n");
    SuffixOfAppend(header + lines, extra + "}\n", extra + "}\n");
    if extra == "" {
      if lines != "" {
        SuffixOfAppend(header, lines, ";\n");
      } else {
        assert header + lines == header;
      }
      SuffixExtend(header + lines, ";\n", "}\n");
    }
  }

  /** `createApiInterface(schemaPath)` with the file's content already parsed. */
  function CreateApiInterface(schemaPath: string, schema: TypeSchema, dateType: string,
                              customFields: map<string, string>): (r: string)
    ensures StartsWith(r, Header(InterfaceName(schemaPath)))
    ensures EndsWith(r, "}\n")
    ensures schema.localized ==> EndsWith(r, LocaleLines(InterfaceName(schemaPath)) + "}\n")
    ensures !schema.localized ==> EndsWith(r, ";\n}\n")
  {
    var name := InterfaceName(schemaPath);
    var lines := AttributeLines(schema.attributes, dateType, customFields);
    var extra := if schema.localized then LocaleLines(name) else "";
    AttributeLinesShape(schema.attributes, dateType, customFields);
    assert Header(name)[|Header(name)| - 2..] == ";\n";
    Closing(Header(name), lines, extra);
    assert EndsWith(extra + "}\n", "}\n");
    Header(name) + lines + extra + "}\n"
  }

  /** The locale members are present exactly when the schema is localized. */
  lemma LocalizedIff(schemaPath: string, schema: TypeSchema, dateType: string, customFields: map<string, string>)
    ensures var r := CreateApiInterface(schemaPath, schema, dateType, customFields);
            schema.localized <==> EndsWith(r, " }}\n")
  {
    var r := CreateApiInterface(schemaPath, schema, dateType, customFields);
    var tail := LocaleLines(InterfaceName(schemaPath)) + "}\n";
    if schema.localized {
      assert r[|r| - 4..] == tail[|tail| - 4..];
    } else {
      assert r[|r| - 4] == ';';
    }
  }

  /** The body lists the attributes in entry order, before the locale members of a localized type. */
  lemma AttributesInOrder(schemaPath: string, schema: TypeSchema, xs: seq<AttributeEntry>, ys: seq<AttributeEntry>,
                          dateType: string, customFields: map<string, string>)
    requires schema.attributes == xs + ys
    ensures var name := InterfaceName(schemaPath);
            CreateApiInterface(schemaPath, schema, dateType, customFields)
            == Header(name) + AttributeLines(xs, dateType, customFields) + AttributeLines(ys, dateType, customFields)
               + (if schema.localized then LocaleLines(name) else "") + "}\n"
  {
    Layout(schemaPath, schema, dateType, customFields);
    AttributesInOrderLines(Header(InterfaceName(schemaPath)), xs, ys, dateType, customFields,
                           if schema.localized then LocaleLines(InterfaceName(schemaPath)) else "");
  }

  lemma AttributesInOrderLines(header: string, xs: seq<AttributeEntry>, ys: seq<AttributeEntry>,
                               dateType: string, customFields: map<string, string>, extra: string)
    ensures header + AttributeLines(xs + ys, dateType, customFields) + extra + "}\n"
         == header + AttributeLines(xs, dateType, customFields) + AttributeLines(ys, dateType, customFields)
            + extra + "}\n"
  {
    AttributeLinesAppend(xs, ys, dateType, customFields);
  }

  /**
   The interface is the header, the property lines in entry order, the
   locale members exactly when the schema is localized, and the closing brace.
   */
  lemma Layout(schemaPath: string, schema: TypeSchema, dateType: string, customFields: map<string, string>)
    ensures var name := InterfaceName(schemaPath);
            CreateApiInterface(schemaPath, schema, dateType, customFields)
            == Header(name) + AttributeLines(schema.attributes, dateType, customFields)
               + (if schema.localized then LocaleLines(name) else "") + "}\n"
  {
    var lines := AttributeLines(schema.attributes, dateType, customFields);
    assert lines + "" == lines;
  }

  /** Password attributes leave the interface unchanged. */
  lemma PasswordsIgnored(schemaPath: string, schema: TypeSchema, xs: seq<AttributeEntry>, name: string,
                         required: Option<bool>, ys: seq<AttributeEntry>, dateType: string,
                         customFields: map<string, string>)
    requires schema.attributes == xs + [(name, StringAttribute(Password, required))] + ys
    ensures CreateApiInterface(schemaPath, schema, dateType, customFields)
         == CreateApiInterface(schemaPath, schema.(attributes := xs + ys), dateType, customFields)
  {
    PasswordContributesNothing(xs, name, required, ys, dateType, customFields);
  }

  /** The name is the title-cased folder that directly holds the schema file. */
  lemma NameFromFolder(dir: string, folder: string, file: string)
    requires Free(folder, {'/'}) && Free(file, {'/'})
    ensures InterfaceName(dir + "/" + folder + "/" + file) == TitleCase(folder)
  {
    SplitLastTwo(dir, '/', folder, '/', file, {'/'});
    assert dir + "/" + folder + "/" + file == dir + ['/'] + folder + ['/'] + file;
  }

  /** "src/api/tag/content-types/tag/schema.json" gives "Tag". */
  lemma TagExample()
    ensures InterfaceName("src/api/tag/content-types/tag/schema.json") == "Tag"
  {
    var dir, tag, file := "src/api/tag/content-types", "tag", "schema.json";
    assert Free(tag, {'/'}) && Free(file, {'/'});
    assert dir + "/" + tag + "/" + file == "src/api/tag/content-types/tag/schema.json";
    NameFromFolder(dir, tag, file);
    TitleCaseTag();
  }
}
