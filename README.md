# Directive field-location validation (Neo4j GraphQL library)

This project models the schema-build rule `ValidDirectiveAtFieldLocation`.
The rule decides whether a directive may be attached to a field definition.
Each rejected directive is reported to the validation context as an error.
Three facts drive the decision:

- the kind and name of the field's parent type: a root type (`Query`,
  `Mutation`, `Subscription`), an interface, or anything else;
- whether the field also carries `@cypher`;
- whether a parent interface carries `@relationshipProperties`.

Files and modules:

- `ast.dfy` (`Ast`): definitions as values that have a kind, a name and
  their directives. It also holds the `.some`/`.find` search over directives
  (`HasDirective`).
- `strings.dfy` (`Strings`): "starts with", "ends with" and "contains" on
  strings, with the concatenation facts that state what the messages say.
- `document_validation.dfy` (`DocumentValidation`): the thrown
  `DocumentValidationError`, the `assertValid` wrapper, the reported
  `GraphQLError`, and the class `SDLValidationContext`, whose
  `ReportError` appends to an error list.
- `valid_directive_field_location.dfy` (`ValidDirectiveFieldLocation`): the
  rule itself. The location checks are functions; a thrown error is the
  value `Thrown(...)`. The closure that `isDirectiveValidAtLocation` returns
  is the datatype `LocationRule`, and `RunRule` runs it. The visitor is the
  class `ValidDirectiveAtFieldLocation`. Its `Directive` method appends to
  the context exactly the errors the function `DirectiveErrors` specifies.
- `field_location_properties.dfy` (`FieldLocationProperties`): the
  guarantees. `Permitted` is an independent statement, rule by rule, of
  where each directive may sit. The lemmas tie the checks and the visitor
  to `Permitted`, and pin down each error's message and path.

The library's directive table is the parameter `table`: the names of all
directives it defines, with the type-dependant scaffolds. The triple that
the path lookup returns is an input to the visitor: the path to the node,
the definition the directive sits on, and that definition's parent.

A directive on a field whose parent is neither a root type nor an
interface is never rejected.

The comment above the rule (line 36 of the source) describes the rule more
loosely than the code behaves. The model follows the code:

- On Query and Mutation fields, `@authentication` beside `@cypher` is
  accepted, and so is any directive the library does not define. The
  comment says only `@cypher` is valid there.
- On `Subscription` fields, every directive in the table is rejected.
  A directive outside the table is accepted. The comment says no
  directive is valid there.

Also, a directive outside the table can still be rejected, in two cases:
`@authentication` on a `Query`/`Mutation` field without `@cypher`, and
`@authorization` next to `@cypher` there. Both names are checked before
the table is consulted. So "unknown directives are never rejected" holds
only when the table defines `@authentication` and `@authorization`, as the
library's table does (`OnlyTableDirectivesRejected`,
`UnknownDirectiveNeverRejected`).

## Model

| member | source | states |
|---|---|---|
| `Ast.HasDirective` | packages/graphql/src/schema/validation/custom-rules/directives/valid-directive-field-location.ts:162-164 | true exactly when some directive in the list has the given name |
| `DocumentValidation.AssertValid` | packages/graphql/src/schema/validation/custom-rules/directives/valid-directive-field-location.ts:60 | the verdict is valid exactly when the check did not throw; otherwise it carries the thrown message and path |
| `DocumentValidation.CreateGraphQLError` | packages/graphql/src/schema/validation/custom-rules/directives/valid-directive-field-location.ts:63-67 | the reported error carries exactly the given nodes, path and message |
| `DocumentValidation.SDLValidationContext.ReportError` | packages/graphql/src/schema/validation/custom-rules/directives/valid-directive-field-location.ts:62-68 | appends the error to the context's list and changes nothing else |
| `ValidDirectiveFieldLocation.UnsupportedMessage` | packages/graphql/src/schema/validation/custom-rules/directives/valid-directive-field-location.ts:126 | the general message starts with "Invalid directive usage: ", contains `@<directive>` and the type name, and ends with " type." |
| `ValidDirectiveFieldLocation.AuthenticationWithoutCypherMessage` | packages/graphql/src/schema/validation/custom-rules/directives/valid-directive-field-location.ts:172 | the message contains the type name and ends with "unless it is a @cypher field." |
| `ValidDirectiveFieldLocation.AuthorizationWithCypherMessage` | packages/graphql/src/schema/validation/custom-rules/directives/valid-directive-field-location.ts:178 | the message contains the type name and ends with "Did you mean to use @authentication?" |
| `ValidDirectiveFieldLocation.ErrorPath` | packages/graphql/src/schema/validation/custom-rules/directives/valid-directive-field-location.ts:127 | one element: `@` followed by the directive name |
| `ValidDirectiveFieldLocation.FindDirective` | packages/graphql/src/schema/validation/custom-rules/directives/valid-directive-field-location.ts:120-123 | finds an entry exactly when the name is in the table, and the entry found has that name |
| `ValidDirectiveFieldLocation.IsLocationFieldOfRootType` | packages/graphql/src/schema/validation/custom-rules/directives/valid-directive-field-location.ts:97-105 | true exactly for object type definitions named Query, Mutation or Subscription; such a parent is never an interface |
| `ValidDirectiveFieldLocation.IsLocationFieldOfInterfaceType` | packages/graphql/src/schema/validation/custom-rules/directives/valid-directive-field-location.ts:107-111 | true exactly for interface type definitions |
| `ValidDirectiveFieldLocation.NoDirectivesAllowedAtLocation` | packages/graphql/src/schema/validation/custom-rules/directives/valid-directive-field-location.ts:113-130 | throws exactly when the directive's name is in the table; the error names the directive and the parent type, with path `["@" + name]` |
| `ValidDirectiveFieldLocation.ValidFieldOfInterfaceTypeLocation` | packages/graphql/src/schema/validation/custom-rules/directives/valid-directive-field-location.ts:132-145 | throws exactly when the interface lacks `@relationshipProperties` and the directive is in the table; says which message and path |
| `ValidDirectiveFieldLocation.ValidFieldOfRootTypeLocation` | packages/graphql/src/schema/validation/custom-rules/directives/valid-directive-field-location.ts:147-184 | Subscription throws exactly for table directives; on Query/Mutation `@cypher` passes, `@authentication` passes exactly beside `@cypher`, `@authorization` beside `@cypher` throws, and any other directive throws exactly when it is in the table; the message of each case is given, and the path is always `["@" + name]` |
| `ValidDirectiveFieldLocation.RunRule` | packages/graphql/src/schema/validation/custom-rules/directives/valid-directive-field-location.ts:84-92 | runs the deferred check: a thrown error points at the directive; a `@relationshipProperties` interface never throws; a name outside the table is thrown only by the Query/Mutation checks of `@authentication` and `@authorization` |
| `ValidDirectiveFieldLocation.IsDirectiveValidAtLocation` | packages/graphql/src/schema/validation/custom-rules/directives/valid-directive-field-location.ts:74-95 | no check exactly when the parent is neither a root object type nor an interface; otherwise the interface check exactly for interfaces, carrying the given directive and definitions |
| `ValidDirectiveFieldLocation.DirectiveErrors` | packages/graphql/src/schema/validation/custom-rules/directives/valid-directive-field-location.ts:39-70 | at most one error; an error only for a directive on a field that has a parent; the error concerns that field, and its path is the path to the node followed by `@<name>` |
| `ValidDirectiveFieldLocation.ValidDirectiveAtFieldLocation.constructor` | packages/graphql/src/schema/validation/custom-rules/directives/valid-directive-field-location.ts:37-38 | the visitor reports into the given context, against the given directive table |
| `ValidDirectiveFieldLocation.ValidDirectiveAtFieldLocation.Directive` | packages/graphql/src/schema/validation/custom-rules/directives/valid-directive-field-location.ts:39-70 | the context's error list becomes the old list followed by exactly the errors `DirectiveErrors` specifies |
| `FieldLocationProperties.HasDirectiveIsCarries` | packages/graphql/src/schema/validation/custom-rules/directives/valid-directive-field-location.ts:139 | the directive search agrees with membership of a directive of that name |
| `FieldLocationProperties.CheckRejectsIffNotPermitted` | packages/graphql/src/schema/validation/custom-rules/directives/valid-directive-field-location.ts:74-184 | the selected check throws exactly when the directive is not `Permitted` at that field, in both directions |
| `FieldLocationProperties.VisitReportsErrorIffNotPermitted` | packages/graphql/src/schema/validation/custom-rules/directives/valid-directive-field-location.ts:39-70 | a visit reports exactly one error exactly when the directive is on a field that has a parent and is not `Permitted`, else none; the error's node and path are given |
| `FieldLocationProperties.NoErrorOutsideCheckedLocations` | packages/graphql/src/schema/validation/custom-rules/directives/valid-directive-field-location.ts:41-49 | no error when the directive is not on a field, the field has no parent, or the parent is a non-root object or some other kind of definition |
| `FieldLocationProperties.CypherAcceptedOnQueryAndMutation` | packages/graphql/src/schema/validation/custom-rules/directives/valid-directive-field-location.ts:156-161 | `@cypher` on a Query or Mutation field is never reported, whatever else the field carries |
| `FieldLocationProperties.AuthenticationOnlyWithCypher` | packages/graphql/src/schema/validation/custom-rules/directives/valid-directive-field-location.ts:162-175 | `@authentication` on Query/Mutation is reported exactly when the field lacks `@cypher`; the one error has path `@authentication` and a message ending "unless it is a @cypher field." |
| `FieldLocationProperties.AuthorizationWithCypherRejected` | packages/graphql/src/schema/validation/custom-rules/directives/valid-directive-field-location.ts:176-181 | `@authorization` beside `@cypher` on Query/Mutation is always reported, with a message ending "Did you mean to use @authentication?" |
| `FieldLocationProperties.QueryAndMutationRejectOtherLibraryDirectives` | packages/graphql/src/schema/validation/custom-rules/directives/valid-directive-field-location.ts:183 | on Query/Mutation, a directive other than `@cypher`, `@authentication` and `@authorization` beside `@cypher` is reported exactly when it is in the table, as one error with the general message and path `@<name>` |
| `FieldLocationProperties.RelationshipRejectedOnQuery` | packages/graphql/src/schema/validation/custom-rules/directives/valid-directive-field-location.ts:183 | `@relationship` from the table on a Query field is reported once, under `@relationship`, with the general message naming Query |
| `FieldLocationProperties.SubscriptionRejectsLibraryDirectives` | packages/graphql/src/schema/validation/custom-rules/directives/valid-directive-field-location.ts:156-183 | on Subscription fields a directive is reported exactly when it is in the table, `@cypher` and `@authentication` included; the message names the directive and Subscription |
| `FieldLocationProperties.InterfaceFieldsRejectLibraryDirectives` | packages/graphql/src/schema/validation/custom-rules/directives/valid-directive-field-location.ts:132-145 | on interface fields nothing is reported if the interface carries `@relationshipProperties`; otherwise a directive is reported exactly when it is in the table, with a message naming the interface |
| `FieldLocationProperties.OnlyTableDirectivesRejected` | packages/graphql/src/schema/validation/custom-rules/directives/valid-directive-field-location.ts:120-129 | every reported directive is in the table, unless it is `@authentication`, or `@authorization` beside `@cypher`, on Query/Mutation |
| `FieldLocationProperties.UnknownDirectiveNeverRejected` | packages/graphql/src/schema/validation/custom-rules/directives/valid-directive-field-location.ts:120-129 | when the table defines `@authentication` and `@authorization`, a directive outside the table is never reported at any location |

## Left out

- The path lookup (`getPathToNode`) is not part of this model. Its result
  (path to the node, traversed definition, parent) is an input to `Directive`.
- The bodies of `assertValid`, `createGraphQLError` and `DocumentValidationError`
  are not part of this model. They are modelled as plain records: a check
  passes or throws one error, which has a message and a path.
- `AssertValid` returns an empty message and path on success. That is a
  modelling choice; nothing depends on it, and its contract does not state it.
- The concrete directive table is not part of this model. The library's
  directive definitions and scaffolds are the parameter `table` of names.
- Path elements are strings. GraphQL paths can also hold numeric indices;
  the rule only appends strings to whatever path the lookup gives it.
- Location information and source nodes of `GraphQLError` are dropped,
  except for the list of nodes (the field definition).
- The `console.error` when no parent is found is a log line with no
  effect on the result; it is left out.
- The graphql-js visitor framework and its `Kind` constants are not part of
  this model. The visitor is a class with one callback, and kinds are an
  enumeration. Object and interface extension nodes count as
  `OtherDefinition`, so they are never checked, as in the code.
- The test files about Cypher translation (64-bit integers, temporal
  values, unions, bind rules, an integration test against a database) are not
  part of this model. The translator they exercise is not among the modelled
  sources.
