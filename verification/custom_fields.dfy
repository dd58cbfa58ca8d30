/**
 `getCustomFields` (src/get-custom-fields.ts): the type each configured
 custom field is given in the generated declarations. The custom-field
 configuration is a parameter.
 */
module CustomFields {
  import opened Types

  /** The type a single configuration value stands for. */
  function FieldType(t: CustomFieldType): string {
    match t
    case PlainType(name) => name
    case NamedInterface(name, _) => "Strapi." + name
  }

  /** `getCustomFields()` */
  function GetCustomFields(config: CustomFieldsConfig): (r: map<string, string>)
    ensures r.Keys == config.Keys
    ensures forall k :: k in config && config[k].PlainType? ==> r[k] == config[k].typeName
    ensures forall k :: k in config && config[k].NamedInterface? ==> r[k] == "Strapi." + config[k].name
  {
    map k | k in config :: FieldType(config[k])
  }

  /** The configuration documented beside the function, and the map it gives. */
  lemma DocumentedExample()
    ensures var config := map[
              "plugin::color-picker.color" := PlainType("`#${string}`"),
              "plugin::strapi-plugin-iconhub.iconhub" := NamedInterface("IconHubIcon", map["svg" := "string"])];
            GetCustomFields(config) == map[
              "plugin::color-picker.color" := "`#${string}`",
              "plugin::strapi-plugin-iconhub.iconhub" := "Strapi.IconHubIcon"]
  {
    var color := "plugin::color-picker.color";
    var iconhub := "plugin::strapi-plugin-iconhub.iconhub";
    assert color != iconhub by { assert color[8] != iconhub[8]; }
    var config := map[color := PlainType("`#${string}`"),
                      iconhub := NamedInterface("IconHubIcon", map["svg" := "string"])];
    var expected := map[color := "`#${string}`", iconhub := "Strapi.IconHubIcon"];
    var r := GetCustomFields(config);
    assert r.Keys == expected.Keys;
    assert r[color] == expected[color];
    assert r[iconhub] == expected[iconhub];
  }

  /** An empty configuration gives an empty map. */
  lemma EmptyConfig()
    ensures GetCustomFields(map[]) == map[]
  {
  }
}
