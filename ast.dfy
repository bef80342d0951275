/** The slice of the GraphQL schema syntax tree that the directive
    field-location rule looks at: definitions with a kind, a name and the
    directives attached to them. */
module Ast {

  datatype Option<+T> = None | Some(value: T)

  /** The kinds of definition the rule distinguishes. Every other kind
      (unions, input types, object and interface extensions, arguments, ...)
      is `OtherDefinition`. */
  datatype DefKind =
    | ObjectTypeDefinition
    | InterfaceTypeDefinition
    | FieldDefinition
    | OtherDefinition

  /** A directive usage such as `@cypher(...)`; only its name matters here. */
  datatype DirectiveNode = DirectiveNode(name: string)

  /** A definition node. A missing `directives` list is the empty sequence. */
  datatype Def = Def(kind: DefKind, name: string, directives: seq<DirectiveNode>)

  /** Whether some directive in `ds` is called `name`: the `.some(...)` and
      truthy `.find(...)` over a definition's directives. */
  function HasDirective(ds: seq<DirectiveNode>, name: string): (b: bool)
    ensures b <==> exists i :: 0 <= i < |ds| && ds[i].name == name
  {
    if |ds| == 0 then false
    else if ds[0].name == name then true
    else
      var rest := HasDirective(ds[1..], name);
      assert forall i :: 1 <= i < |ds| ==> ds[i] == ds[1..][i - 1];
      rest
  }
}
