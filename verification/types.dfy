/**
 The records the generator reads (src/types.ts), as immutable datatypes.
 JSON objects become datatypes; `Record<string, Attribute>` becomes the
 sequence of its entries in `Object.entries` order.
 */
module Types {
  import opened Wrappers

  /** The `type` values of `StringAttribute`; `Password` is never exposed by the API. */
  datatype StringKind = String | Text | Blocks | Email | Uid | Password | RichText

  datatype NumberKind = Integer | BigInteger | Decimal | Float

  datatype DateKind = Date | DateTime | Time

  datatype MediaType = Images | Files | Videos | Audios

  /** The cardinality of a relation. */
  datatype RelationKind = OneToOne | OneToMany | ManyToOne | ManyToMany {

    /** The JSON spelling of the cardinality. */
    function Name(): string {
      match this
      case OneToOne => "oneToOne"
      case OneToMany => "oneToMany"
      case ManyToOne => "manyToOne"
      case ManyToMany => "manyToMany"
    }
  }

  /**
   One attribute definition. The first eleven constructors are the eleven
   shapes of the `Attribute` union; `required` is the optional `required`
   flag (a relation has none). `UnrecognisedAttribute` stands for a JSON
   attribute whose `type` is none of the known kinds, which the union does
   not describe but the attribute mapper still handles.
   */
  datatype Attribute =
    | StringAttribute(kind: StringKind, required: Option<bool>)
    | ComponentAttribute(component: string, repeatable: bool, required: Option<bool>)
    | DynamicZoneAttribute(components: seq<string>, required: Option<bool>)
    | MediaAttribute(multiple: bool, allowedTypes: seq<MediaType>, required: Option<bool>)
    | EnumAttribute(values: seq<string>, required: Option<bool>)
    | CustomFieldAttribute(customField: string, required: Option<bool>)
    | RelationAttribute(target: string, relation: RelationKind)
    | JsonAttribute(required: Option<bool>)
    | NumberAttribute(numberKind: NumberKind, required: Option<bool>)
    | DateAttribute(dateKind: DateKind, required: Option<bool>)
    | BooleanAttribute(required: Option<bool>)
    | UnrecognisedAttribute(required: Option<bool>)
  {
    predicate IsPassword() {
      StringAttribute? && kind == Password
    }
  }

  /** An attribute's name together with its definition. */
  type AttributeEntry = (string, Attribute)

  datatype SchemaKind = CollectionType | SingleType

  datatype SchemaInfo = SchemaInfo(singularName: string, pluralName: string, displayName: string)

  /**
   A collection-type or single-type schema; `localized` is the truthiness of
   `pluginOptions.i18n.localized` (false when any link of the chain is absent).
   */
  datatype TypeSchema = TypeSchema(
    kind: SchemaKind,
    collectionName: string,
    info: SchemaInfo,
    localized: bool,
    attributes: seq<AttributeEntry>)

  datatype ComponentSchema = ComponentSchema(
    collectionName: string,
    displayName: string,
    attributes: seq<AttributeEntry>)

  /** A custom-field configuration value: a plain type, or a named interface with its attributes. */
  datatype CustomFieldType =
    | PlainType(typeName: string)
    | NamedInterface(name: string, attributes: map<string, string>)

  type CustomFieldsConfig = map<string, CustomFieldType>

  datatype Config = Config(
    outputDir: string,
    strapiDir: string,
    strapiApiDir: string,
    strapiComponentsDir: string,
    dateType: string,
    usersEnabled: bool,
    customFields: CustomFieldsConfig)

  /** A file the generator writes: its path and its text. */
  datatype OutputFile = OutputFile(path: string, text: string)
}
