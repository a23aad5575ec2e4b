// Loading a document into variables of container types: the loader of src/config.cpp hands the text
// of a node to the conversions of src/config.h.
module ContainerLoading {
  import opened Base
  import opened Yaml
  import opened ConfigLoad
  import Codec

  // Loading the document of an encoded container gives the variable the container with each leaf
  // replaced by what becomes of it on its way through a YAML tree, unless one is lost or a listener
  // throws.
  lemma EncodedContainerIsLoaded<X(!new)>(vars: map<string, Var<Codec.Value<X>>>, env: Codec.Env<X>, ty: Codec.Type,
                                          value: Codec.Value<X>, keys: seq<string>)
    requires Codec.Walks(env) && Codec.YamlInverse(env) && !ty.Leaf? && Codec.HasType(value, ty)
    requires keys != [] && keys[0] != "" && Dotted(keys) in vars
    requires forall c | c in Dotted(keys) :: c in NAME_CHARS && c != '9'
    requires forall text :: vars[Dotted(keys)].cast(text) == Codec.Decode(env, ty, text)
    ensures var name, doc := Dotted(keys), Nested(keys, env.load(Codec.Encode(env, ty, value)));
      var v, after := vars[name], Load(vars, env.emit, doc);
      && name in after
      && match Codec.Trip(env, ty, value)
         case None => after[name].value == v.value
         case Some(x) =>
           after[name].value ==
             if x == v.value || forall i | 0 <= i < |v.listeners| :: v.listeners[i](v.value, x) then x else v.value
  {
    var name, node := Dotted(keys), env.load(Codec.Encode(env, ty, value));
    NestedNodeIsLoaded(vars, env.emit, keys, node);
    Codec.LoadsBack(env, ty, value);
    assert !node.Scalar?;
    Codec.DecodeOfEncode(env, ty, value);
    Codec.SameTextOrTree(env, ty, value);
    assert vars[name].cast(env.emit(node)) == Codec.Trip(env, ty, value);
  }
}
