/**
 * The field-wise payload transformer of `DataTransformer` (transformation_engine.py).
 *
 * Both the source and the target agent must have a registered schema (a
 * dict lookup that raises otherwise); then every field of the payload is
 * mapped through the rule registered under its name, or copied.  The schemas
 * are fetched but play no part in the result.
 */
module Transform {
  import opened Wrappers
  import opened Values

  /** A per-field rule: a pure function from source value to target value. */
  type Rule = Value -> Value

  /** A registered data-shape descriptor: field name to type name. */
  datatype Schema = Schema(fields: map<string, string>)

  datatype Transformer = Transformer(schemaRegistry: map<string, Schema>, rules: map<string, Rule>)

  /** The `KeyError` raised by the registry lookup, naming the unregistered agent. */
  datatype TransformError = SchemaNotRegistered(agent: string)

  /** `str()` of a `KeyError`: the missing key in quotes. */
  function ErrorMessage(e: TransformError): string {
    "'" + e.agent + "'"
  }

  /** `_apply_rules`: every field through its rule, or copied when it has none. */
  function ApplyRules(rules: map<string, Rule>, data: Record): (r: Record)
    ensures r.Keys == data.Keys
  {
    map f | f in data :: if f in rules then rules[f](data[f]) else data[f]
  }

  /** `transform_data`: schema lookups for both agents, then the rules. */
  function TransformData(t: Transformer, data: Record, source: string, target: string): (r: Result<Record, TransformError>)
    ensures r.Failure? <==> source !in t.schemaRegistry || target !in t.schemaRegistry
    ensures source !in t.schemaRegistry ==> r == Failure(SchemaNotRegistered(source))
    ensures source in t.schemaRegistry && target !in t.schemaRegistry ==> r == Failure(SchemaNotRegistered(target))
    ensures r.Success? ==> r.value.Keys == data.Keys
    ensures r.Success? ==> forall f :: f in data && f in t.rules ==> r.value[f] == t.rules[f](data[f])
    ensures r.Success? ==> forall f :: f in data && f !in t.rules ==> r.value[f] == data[f]
  {
    if source !in t.schemaRegistry then Failure(SchemaNotRegistered(source))
    else if target !in t.schemaRegistry then Failure(SchemaNotRegistered(target))
    else
      var sourceSchema := t.schemaRegistry[source];
      var targetSchema := t.schemaRegistry[target];
      Success(ApplyRules(t.rules, data))
  }

  /** The fields of `data` named in `keep`. */
  function Restrict(data: Record, keep: set<string>): Record {
    map f | f in data && f in keep :: data[f]
  }

  /** With no rules registered the transform returns its input unchanged. */
  lemma NoRulesIsIdentity(t: Transformer, data: Record, source: string, target: string)
    requires t.rules == map[]
    requires source in t.schemaRegistry && target in t.schemaRegistry
    ensures TransformData(t, data, source, target) == Success(data)
  {
    var r := ApplyRules(t.rules, data);
    assert forall f :: f in r ==> r[f] == data[f];
    assert r == data;
  }

  /** The schemas are looked up only: any registered schemas give the same output. */
  lemma SchemasDoNotAffectOutput(t1: Transformer, t2: Transformer, data: Record, source: string, target: string)
    requires t1.rules == t2.rules
    requires source in t1.schemaRegistry && target in t1.schemaRegistry
    requires source in t2.schemaRegistry && target in t2.schemaRegistry
    ensures TransformData(t1, data, source, target) == TransformData(t2, data, source, target)
  {
  }

  /** Rules registered for fields the payload lacks have no effect. */
  lemma UnusedRulesIrrelevant(rules1: map<string, Rule>, rules2: map<string, Rule>, data: Record)
    requires forall f :: f in data ==> (f in rules1 <==> f in rules2)
    requires forall f :: f in data && f in rules1 ==> rules1[f] == rules2[f]
    ensures ApplyRules(rules1, data) == ApplyRules(rules2, data)
  {
  }

  /** Field-wise: transforming a selection of fields is selecting from the transformed payload. */
  lemma RestrictCommutes(rules: map<string, Rule>, data: Record, keep: set<string>)
    ensures ApplyRules(rules, Restrict(data, keep)) == Restrict(ApplyRules(rules, data), keep)
  {
  }

  /** When every rule is idempotent, so is the whole transform. */
  lemma IdempotentRules(rules: map<string, Rule>, data: Record)
    requires forall f, v :: f in rules ==> rules[f](rules[f](v)) == rules[f](v)
    ensures ApplyRules(rules, ApplyRules(rules, data)) == ApplyRules(rules, data)
  {
  }
}
