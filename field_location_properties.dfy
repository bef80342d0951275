/** What the directive field-location rule guarantees, stated against an
    independent description of where each directive is permitted and
    proved about the rule's functions and its visitor's error list. */
module FieldLocationProperties {
  import opened Ast
  import opened DocumentValidation
  import opened ValidDirectiveFieldLocation
  import opened Strings

  /** `def` carries a directive called `name`. */
  ghost predicate Carries(def: Def, name: string) {
    exists d :: d in def.directives && d.name == name
  }

  ghost predicate IsQueryOrMutation(parent: Def) {
    parent.kind == ObjectTypeDefinition && (parent.name == "Query" || parent.name == "Mutation")
  }

  ghost predicate IsSubscription(parent: Def) {
    parent.kind == ObjectTypeDefinition && parent.name == "Subscription"
  }

  /** Where a directive called `name` may sit on field `field` of type
      `parent`, written rule by rule:
      - Subscription fields: no library directive;
      - Query and Mutation fields: `@cypher`; `@authentication` only beside
        `@cypher`; never `@authorization` beside `@cypher`; apart from
        those, no library directive;
      - interface fields: anything when the interface carries
        `@relationshipProperties`, else no library directive;
      - fields of any other parent: anything. */
  ghost predicate Permitted(name: string, field: Def, parent: Def, table: seq<string>) {
    if IsSubscription(parent) then
      name !in table
    else if IsQueryOrMutation(parent) then
      if name == "cypher" then true
      else if name == "authentication" then Carries(field, "cypher")
      else if name == "authorization" && Carries(field, "cypher") then false
      else name !in table
    else if parent.kind == InterfaceTypeDefinition then
      Carries(parent, "relationshipProperties") || name !in table
    else
      true
  }

  lemma HasDirectiveIsCarries(def: Def, name: string)
    ensures HasDirective(def.directives, name) <==> Carries(def, name)
  {
    if HasDirective(def.directives, name) {
      var i :| 0 <= i < |def.directives| && def.directives[i].name == name;
      assert def.directives[i] in def.directives;
    }
  }

  /** The location check chosen for a field rejects the directive exactly
      when the directive is not permitted there. */
  lemma CheckRejectsIffNotPermitted(directive: DirectiveNode, field: Def, parent: Def, table: seq<string>)
    ensures (match IsDirectiveValidAtLocation(directive, field, parent)
             case None => false
             case Some(rule) => RunRule(rule, table).Thrown?)
            <==> !Permitted(directive.name, field, parent, table)
  {
    HasDirectiveIsCarries(field, "cypher");
    HasDirectiveIsCarries(parent, "relationshipProperties");
    if IsDirectiveValidAtLocation(directive, field, parent).None? {
      assert Permitted(directive.name, field, parent, table);
    }
  }

  /** One visit of a directive reports an error exactly when the directive
      sits on a field, that field has a parent, and the directive is not
      permitted there; at most one error is reported, it concerns the
      field, and its path is the path to the node followed by
      `@<directive name>`. */
  lemma VisitReportsErrorIffNotPermitted(directive: DirectiveNode, pathToNode: seq<string>, traversedDef: Option<Def>,
                                         parentOfTraversedDef: Option<Def>, table: seq<string>)
    ensures var errs := DirectiveErrors(directive, pathToNode, traversedDef, parentOfTraversedDef, table);
            |errs| <= 1
            && (|errs| == 1 <==>
                  traversedDef.Some? && traversedDef.value.kind == FieldDefinition && parentOfTraversedDef.Some?
                  && !Permitted(directive.name, traversedDef.value, parentOfTraversedDef.value, table))
            && (|errs| == 1 ==> errs[0].nodes == [traversedDef.value] && errs[0].path == pathToNode + ["@" + directive.name])
  {
    if traversedDef.Some? && traversedDef.value.kind == FieldDefinition && parentOfTraversedDef.Some? {
      CheckRejectsIffNotPermitted(directive, traversedDef.value, parentOfTraversedDef.value, table);
    }
  }

  /** No error is reported when the directive is not on a field
      definition, when the field has no parent, or when the parent is an
      object type other than Query, Mutation and Subscription (or any
      other kind of definition that is not an interface). */
  lemma NoErrorOutsideCheckedLocations(directive: DirectiveNode, pathToNode: seq<string>, traversedDef: Option<Def>,
                                       parentOfTraversedDef: Option<Def>, table: seq<string>)
    requires || traversedDef.None?
             || traversedDef.value.kind != FieldDefinition
             || parentOfTraversedDef.None?
             || (parentOfTraversedDef.value.kind == ObjectTypeDefinition
                 && parentOfTraversedDef.value.name !in {"Query", "Mutation", "Subscription"})
             || parentOfTraversedDef.value.kind == FieldDefinition
             || parentOfTraversedDef.value.kind == OtherDefinition
    ensures DirectiveErrors(directive, pathToNode, traversedDef, parentOfTraversedDef, table) == []
  {
  }

  /** On Query and Mutation fields `@cypher` is always accepted, whatever
      else the field carries. */
  lemma CypherAcceptedOnQueryAndMutation(pathToNode: seq<string>, field: Def, parent: Def, table: seq<string>)
    requires field.kind == FieldDefinition && IsQueryOrMutation(parent)
    ensures DirectiveErrors(DirectiveNode("cypher"), pathToNode, Some(field), Some(parent), table) == []
  {
  }

  /** On Query and Mutation fields `@authentication` is accepted if and only
      if the field also carries `@cypher`; otherwise the one error says it
      needs a `@cypher` field and points at `@authentication`. */
  lemma AuthenticationOnlyWithCypher(pathToNode: seq<string>, field: Def, parent: Def, table: seq<string>)
    requires field.kind == FieldDefinition && IsQueryOrMutation(parent)
    ensures var errs := DirectiveErrors(DirectiveNode("authentication"), pathToNode, Some(field), Some(parent), table);
            (errs == [] <==> Carries(field, "cypher"))
            && (errs != [] ==>
                  errs == [GraphQLError([field], pathToNode + ["@authentication"], AuthenticationWithoutCypherMessage(parent.name))]
                  && EndsWith(errs[0].message, "unless it is a @cypher field."))
  {
    HasDirectiveIsCarries(field, "cypher");
    assert "@" + "authentication" == "@authentication";
  }

  /** On Query and Mutation fields `@authorization` next to `@cypher` is
      always rejected, with a message pointing to `@authentication`. */
  lemma AuthorizationWithCypherRejected(pathToNode: seq<string>, field: Def, parent: Def, table: seq<string>)
    requires field.kind == FieldDefinition && IsQueryOrMutation(parent) && Carries(field, "cypher")
    ensures var errs := DirectiveErrors(DirectiveNode("authorization"), pathToNode, Some(field), Some(parent), table);
            errs == [GraphQLError([field], pathToNode + ["@authorization"], AuthorizationWithCypherMessage(parent.name))]
            && EndsWith(errs[0].message, "Did you mean to use @authentication?")
  {
    HasDirectiveIsCarries(field, "cypher");
    assert "@" + "authorization" == "@authorization";
  }

  /** On Query and Mutation fields, any directive other than `@cypher`,
      `@authentication` and `@authorization` beside `@cypher` is rejected
      exactly when the library defines it, with the general message naming
      the directive and the type, under `@<name>`. */
  lemma QueryAndMutationRejectOtherLibraryDirectives(directive: DirectiveNode, pathToNode: seq<string>, field: Def,
                                                     parent: Def, table: seq<string>)
    requires field.kind == FieldDefinition && IsQueryOrMutation(parent)
    requires directive.name != "cypher" && directive.name != "authentication"
    requires !(directive.name == "authorization" && Carries(field, "cypher"))
    ensures var errs := DirectiveErrors(directive, pathToNode, Some(field), Some(parent), table);
            (errs != [] <==> directive.name in table)
            && (errs != [] ==>
                  errs == [GraphQLError([field], pathToNode + ["@" + directive.name], UnsupportedMessage(directive.name, parent.name))])
  {
    HasDirectiveIsCarries(field, "cypher");
  }

  /** The same for one library directive: `@relationship` on a Query field
      is reported once, under `@relationship`, with the general message. */
  lemma RelationshipRejectedOnQuery(pathToNode: seq<string>, field: Def, table: seq<string>)
    requires field.kind == FieldDefinition && "relationship" in table
    ensures DirectiveErrors(DirectiveNode("relationship"), pathToNode, Some(field), Some(Def(ObjectTypeDefinition, "Query", [])), table)
            == [GraphQLError([field], pathToNode + ["@relationship"], UnsupportedMessage("relationship", "Query"))]
  {
    assert "@" + "relationship" == "@relationship";
  }

  /** On Subscription fields every directive in the library's table is
      rejected, `@cypher` and `@authentication` included, with a message
      naming the directive and the Subscription type; any other directive
      is accepted. */
  lemma SubscriptionRejectsLibraryDirectives(directive: DirectiveNode, pathToNode: seq<string>, field: Def,
                                             parent: Def, table: seq<string>)
    requires field.kind == FieldDefinition && IsSubscription(parent)
    ensures var errs := DirectiveErrors(directive, pathToNode, Some(field), Some(parent), table);
            (errs != [] <==> directive.name in table)
            && (errs != [] ==>
                  errs[0].message == UnsupportedMessage(directive.name, "Subscription")
                  && Contains(errs[0].message, "Subscription")
                  && Contains(errs[0].message, "@" + directive.name))
  {
  }

  /** On interface fields any directive is accepted when the interface
      carries `@relationshipProperties`; otherwise exactly the library's
      directives are rejected, with a message naming the interface. */
  lemma InterfaceFieldsRejectLibraryDirectives(directive: DirectiveNode, pathToNode: seq<string>, field: Def,
                                              parent: Def, table: seq<string>)
    requires field.kind == FieldDefinition && parent.kind == InterfaceTypeDefinition
    ensures var errs := DirectiveErrors(directive, pathToNode, Some(field), Some(parent), table);
            (Carries(parent, "relationshipProperties") ==> errs == [])
            && (!Carries(parent, "relationshipProperties") ==> (errs != [] <==> directive.name in table))
            && (errs != [] ==>
                  errs[0].message == UnsupportedMessage(directive.name, parent.name)
                  && Contains(errs[0].message, parent.name))
  {
    HasDirectiveIsCarries(parent, "relationshipProperties");
  }

  /** A directive the library does not define is rejected only in the two
      cases that are checked by name before the table is consulted:
      `@authentication` on a Query or Mutation field without `@cypher`, and
      `@authorization` beside `@cypher` there. Every other rejection is of
      a name in the table. */
  lemma OnlyTableDirectivesRejected(directive: DirectiveNode, pathToNode: seq<string>, traversedDef: Option<Def>,
                                    parentOfTraversedDef: Option<Def>, table: seq<string>)
    requires DirectiveErrors(directive, pathToNode, traversedDef, parentOfTraversedDef, table) != []
    ensures directive.name in table
            || (IsQueryOrMutation(parentOfTraversedDef.value) && directive.name == "authentication")
            || (IsQueryOrMutation(parentOfTraversedDef.value) && directive.name == "authorization"
                && Carries(traversedDef.value, "cypher"))
  {
    VisitReportsErrorIffNotPermitted(directive, pathToNode, traversedDef, parentOfTraversedDef, table);
  }

  /** With the library's own directive table, which defines both
      `@authentication` and `@authorization`, an unknown directive is never
      rejected at any location. */
  lemma UnknownDirectiveNeverRejected(directive: DirectiveNode, pathToNode: seq<string>, traversedDef: Option<Def>,
                                      parentOfTraversedDef: Option<Def>, table: seq<string>)
    requires "authentication" in table && "authorization" in table
    requires directive.name !in table
    ensures DirectiveErrors(directive, pathToNode, traversedDef, parentOfTraversedDef, table) == []
  {
    if DirectiveErrors(directive, pathToNode, traversedDef, parentOfTraversedDef, table) != [] {
      OnlyTableDirectivesRejected(directive, pathToNode, traversedDef, parentOfTraversedDef, table);
    }
  }
}
