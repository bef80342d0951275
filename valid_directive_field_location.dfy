/** The schema-build rule that decides whether a directive may be attached
    to a field definition, given the field's parent type. Only fields of
    the root types (Query, Mutation, Subscription) and of interfaces are
    checked; on those, the directives the library defines are restricted.

    The library's directive table (its own directives plus the
    type-dependant scaffolds) is the parameter `table`: the names of the
    directives it defines. */
module ValidDirectiveFieldLocation {
  import opened Ast
  import opened DocumentValidation
  import opened Strings

  const RootTypeNames: seq<string> := ["Query", "Mutation", "Subscription"]

  /** The message for a library directive used where none is supported:
      it names the directive and the type. */
  function UnsupportedMessage(directive: string, typeName: string): (m: string)
    ensures Contains(m, "@" + directive)
    ensures Contains(m, typeName)
    ensures StartsWith(m, "Invalid directive usage: ") && EndsWith(m, " type.")
  {
    var head := "Invalid directive usage: Directive ";
    var middle := " is not supported on fields of the ";
    ContainsSecond(head, "@" + directive, middle, typeName + " type.");
    ContainsMiddle(head + ("@" + directive) + middle, typeName, " type.");
    EndsWithLast(head + ("@" + directive) + middle + typeName, " type.");
    assert head + ("@" + directive) + middle + (typeName + " type.")
        == head + ("@" + directive) + middle + typeName + " type.";
    assert StartsWith(head + ("@" + directive) + middle + typeName + " type.", "Invalid directive usage: ");
    "Invalid directive usage: Directive " + ("@" + directive)
      + " is not supported on fields of the " + typeName + " type."
  }

  /** The message for `@authentication` on a root field without `@cypher`:
      it names the type and ends by asking for a `@cypher` field. */
  function AuthenticationWithoutCypherMessage(typeName: string): (m: string)
    ensures Contains(m, typeName)
    ensures EndsWith(m, "unless it is a @cypher field.")
  {
    var head := "Invalid directive usage: Directive @authentication is not supported on fields of the ";
    ContainsSecond(head, typeName, " type ", "unless it is a @cypher field.");
    EndsWithLast(head + typeName + " type ", "unless it is a @cypher field.");
    "Invalid directive usage: Directive @authentication is not supported on fields of the "
      + typeName + " type " + "unless it is a @cypher field."
  }

  /** The message for `@authorization` next to `@cypher` on a root field:
      it names the type and ends by suggesting `@authentication`. */
  function AuthorizationWithCypherMessage(typeName: string): (m: string)
    ensures Contains(m, typeName)
    ensures EndsWith(m, "Did you mean to use @authentication?")
  {
    var head := "Invalid directive usage: Directive @authorization is not supported on fields of the ";
    ContainsSecond(head, typeName, " type. ", "Did you mean to use @authentication?");
    EndsWithLast(head + typeName + " type. ", "Did you mean to use @authentication?");
    "Invalid directive usage: Directive @authorization is not supported on fields of the "
      + typeName + " type. " + "Did you mean to use @authentication?"
  }

  /** The error path of a rejected directive: one element, the directive's
      name behind an `@`. */
  function ErrorPath(directive: DirectiveNode): (p: seq<string>)
    ensures |p| == 1 && |p[0]| == |directive.name| + 1
    ensures p[0][0] == '@' && p[0][1..] == directive.name
  {
    ["@" + directive.name]
  }

  /** The first entry of the directive table named `name`, if any. */
  function FindDirective(table: seq<string>, name: string): (r: Option<string>)
    ensures r.Some? <==> name in table
    ensures r.Some? ==> r.value == name
  {
    if |table| == 0 then None
    else if table[0] == name then Some(table[0])
    else FindDirective(table[1..], name)
  }

  /** The parent is one of the root operation types. An interface named
      `Query` is not a root type. */
  function IsLocationFieldOfRootType(parentDef: Def): (b: bool)
    ensures b ==> !IsLocationFieldOfInterfaceType(parentDef)
    ensures b <==> parentDef.kind == ObjectTypeDefinition
                   && (parentDef.name == "Query" || parentDef.name == "Mutation" || parentDef.name == "Subscription")
  {
    parentDef.kind == ObjectTypeDefinition && parentDef.name in RootTypeNames
  }

  /** The parent is an interface type definition (not an extension). */
  function IsLocationFieldOfInterfaceType(parentDef: Def): (b: bool)
    ensures b <==> parentDef.kind == InterfaceTypeDefinition
  {
    parentDef.kind == InterfaceTypeDefinition
  }

  /** Rejects `directive` exactly when the library defines a directive of
      that name; the message names the parent type. */
  function NoDirectivesAllowedAtLocation(directive: DirectiveNode, parentDef: Def, table: seq<string>): (r: Check)
    ensures r.Thrown? <==> directive.name in table
    ensures r.Thrown? ==> r.error == DocumentValidationError(UnsupportedMessage(directive.name, parentDef.name), ErrorPath(directive))
  {
    match FindDirective(table, directive.name)
    case Some(found) =>
      Thrown(DocumentValidationError(UnsupportedMessage(found, parentDef.name), ["@" + directive.name]))
    case None => Passed
  }

  /** On an interface field every directive is accepted when the interface
      carries `@relationshipProperties` (another rule checks those);
      otherwise every library directive is rejected. */
  function ValidFieldOfInterfaceTypeLocation(directive: DirectiveNode, parentDef: Def, table: seq<string>): (r: Check)
    ensures r.Thrown? <==> !HasDirective(parentDef.directives, "relationshipProperties") && directive.name in table
    ensures r.Thrown? ==> r.error == DocumentValidationError(UnsupportedMessage(directive.name, parentDef.name), ErrorPath(directive))
  {
    if HasDirective(parentDef.directives, "relationshipProperties") then Passed
    else NoDirectivesAllowedAtLocation(directive, parentDef, table)
  }

  /** On a root field: Subscription accepts no library directive; Query and
      Mutation accept `@cypher`, accept `@authentication` only beside
      `@cypher`, reject `@authorization` beside `@cypher`, and otherwise
      reject every library directive. */
  function ValidFieldOfRootTypeLocation(directive: DirectiveNode, traversedDef: Def, parentDef: Def, table: seq<string>): (r: Check)
    ensures r.Thrown? ==> r.error.path == ErrorPath(directive)
    ensures parentDef.name == "Subscription" ==>
              (r.Thrown? <==> directive.name in table)
    ensures parentDef.name != "Subscription" && directive.name == "cypher" ==> r.Passed?
    ensures parentDef.name != "Subscription" && directive.name == "authentication" ==>
              (r.Passed? <==> HasDirective(traversedDef.directives, "cypher"))
    ensures parentDef.name != "Subscription" && directive.name == "authentication" && r.Thrown? ==>
              r.error.message == AuthenticationWithoutCypherMessage(parentDef.name)
    ensures parentDef.name != "Subscription" && directive.name == "authorization"
            && HasDirective(traversedDef.directives, "cypher") ==>
              r.Thrown? && r.error.message == AuthorizationWithCypherMessage(parentDef.name)
    ensures parentDef.name != "Subscription" && directive.name != "cypher" && directive.name != "authentication"
            && !(directive.name == "authorization" && HasDirective(traversedDef.directives, "cypher")) ==>
              (r.Thrown? <==> directive.name in table)
    ensures (|| parentDef.name == "Subscription"
             || (directive.name != "cypher" && directive.name != "authentication"
                 && !(directive.name == "authorization" && HasDirective(traversedDef.directives, "cypher"))))
            && r.Thrown? ==>
              r.error.message == UnsupportedMessage(directive.name, parentDef.name)
  {
    if parentDef.name != "Subscription" && directive.name == "cypher" then
      Passed
    else if parentDef.name != "Subscription" && directive.name == "authentication"
            && HasDirective(traversedDef.directives, "cypher") then
      Passed
    else if parentDef.name != "Subscription" && directive.name == "authentication" then
      Thrown(DocumentValidationError(AuthenticationWithoutCypherMessage(parentDef.name), ["@" + directive.name]))
    else if parentDef.name != "Subscription" && directive.name == "authorization"
            && HasDirective(traversedDef.directives, "cypher") then
      Thrown(DocumentValidationError(AuthorizationWithCypherMessage(parentDef.name), ["@" + directive.name]))
    else
      NoDirectivesAllowedAtLocation(directive, parentDef, table)
  }

  /** The deferred check `isDirectiveValidAtLocation` hands back: which of
      the two location checks to run, with its arguments. */
  datatype LocationRule =
    | RootTypeRule(directive: DirectiveNode, traversedDef: Def, parentDef: Def)
    | InterfaceTypeRule(directive: DirectiveNode, parentDef: Def)

  /** Runs a deferred check. Whatever it throws points at the directive;
      an interface marked `@relationshipProperties` never throws; and a
      name outside the table is thrown only by the two root-type checks that
      test `@authentication` and `@authorization` by name. */
  function RunRule(rule: LocationRule, table: seq<string>): (r: Check)
    ensures r.Thrown? ==> r.error.path == ErrorPath(rule.directive)
    ensures rule.InterfaceTypeRule? && HasDirective(rule.parentDef.directives, "relationshipProperties") ==> r.Passed?
    ensures r.Thrown? && rule.directive.name !in table ==>
              rule.RootTypeRule? && rule.parentDef.name != "Subscription"
              && (rule.directive.name == "authentication" || rule.directive.name == "authorization")
  {
    match rule
    case RootTypeRule(d, f, p) => ValidFieldOfRootTypeLocation(d, f, p, table)
    case InterfaceTypeRule(d, p) => ValidFieldOfInterfaceTypeLocation(d, p, table)
  }

  /** Picks the check for the parent's kind: root types first, then
      interfaces; any other parent has no check. */
  function IsDirectiveValidAtLocation(directive: DirectiveNode, traversedDef: Def, parentDef: Def): (r: Option<LocationRule>)
    ensures r.None? <==> !IsLocationFieldOfRootType(parentDef) && parentDef.kind != InterfaceTypeDefinition
    ensures r.Some? ==> r.value.directive == directive && r.value.parentDef == parentDef
    ensures r.Some? && r.value.RootTypeRule? ==> r.value.traversedDef == traversedDef
    ensures r.Some? ==> (r.value.InterfaceTypeRule? <==> parentDef.kind == InterfaceTypeDefinition)
  {
    if IsLocationFieldOfRootType(parentDef) then
      Some(RootTypeRule(directive, traversedDef, parentDef))
    else if IsLocationFieldOfInterfaceType(parentDef) then
      Some(InterfaceTypeRule(directive, parentDef))
    else
      None
  }

  /** The errors one visit of `directive` reports, given what the path
      lookup found: the path to the node, the definition the directive sits
      on, and that definition's parent. */
  function DirectiveErrors(directive: DirectiveNode, pathToNode: seq<string>, traversedDef: Option<Def>,
                           parentOfTraversedDef: Option<Def>, table: seq<string>): (errs: seq<GraphQLError>)
    ensures |errs| <= 1
    ensures |errs| == 1 ==>
              traversedDef.Some? && traversedDef.value.kind == FieldDefinition && parentOfTraversedDef.Some?
              && errs[0].nodes == [traversedDef.value]
              && errs[0].path == pathToNode + ErrorPath(directive)
  {
    if traversedDef.None? || traversedDef.value.kind != FieldDefinition then []
    else if parentOfTraversedDef.None? then []
    else
      match IsDirectiveValidAtLocation(directive, traversedDef.value, parentOfTraversedDef.value)
      case None => []
      case Some(rule) =>
        var v := AssertValid(RunRule(rule, table));
        if v.isValid then []
        else [CreateGraphQLError([traversedDef.value], pathToNode + v.errorPath, v.errorMsg)]
  }

  /** The visitor the rule contributes to the schema validation: its
      `Directive` callback runs once per directive node in the document. */
  class ValidDirectiveAtFieldLocation {
    const context: SDLValidationContext
    const table: seq<string>

    constructor (context: SDLValidationContext, table: seq<string>)
      ensures this.context == context && this.table == table
    {
      this.context := context;
      this.table := table;
    }

    method Directive(directiveNode: DirectiveNode, pathToNode: seq<string>,
                     traversedDef: Option<Def>, parentOfTraversedDef: Option<Def>)
      modifies context
      ensures context.errors
              == old(context.errors) + DirectiveErrors(directiveNode, pathToNode, traversedDef, parentOfTraversedDef, table)
    {
      if traversedDef.None? || traversedDef.value.kind != FieldDefinition {
        return;
      }
      if parentOfTraversedDef.None? {
        return;
      }
      var shouldRunThisRule := IsDirectiveValidAtLocation(directiveNode, traversedDef.value, parentOfTraversedDef.value);
      if shouldRunThisRule.None? {
        return;
      }
      var result := AssertValid(RunRule(shouldRunThisRule.value, table));
      if !result.isValid {
        context.ReportError(CreateGraphQLError([traversedDef.value], pathToNode + result.errorPath, result.errorMsg));
      }
    }
  }
}
