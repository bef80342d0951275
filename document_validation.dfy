/** The error plumbing the rule relies on: the error a check throws, the
    `assertValid` wrapper that turns a check into a verdict, the GraphQL
    error built from it, and the SDL validation context that collects
    reported errors. */
module DocumentValidation {
  import opened Ast

  /** The error a location check throws: a message and the path of the
      offending directive, relative to the field. */
  datatype DocumentValidationError = DocumentValidationError(message: string, path: seq<string>)

  /** The outcome of running one location check: it returns normally, or it
      throws a `DocumentValidationError`. */
  datatype Check = Passed | Thrown(error: DocumentValidationError)

  /** What `assertValid` hands back to the visitor. */
  datatype AssertResult = AssertResult(isValid: bool, errorMsg: string, errorPath: seq<string>)

  /** Runs a check and catches the validation error it may throw. */
  function AssertValid(c: Check): (r: AssertResult)
    ensures r.isValid <==> c.Passed?
    ensures !r.isValid ==> r.errorMsg == c.error.message && r.errorPath == c.error.path
  {
    match c
    case Passed => AssertResult(true, "", [])
    case Thrown(e) => AssertResult(false, e.message, e.path)
  }

  /** An error as reported to the schema build: the nodes it concerns,
      the full path from the document root, and the message. */
  datatype GraphQLError = GraphQLError(nodes: seq<Def>, path: seq<string>, message: string)

  /** The error reported for `nodes`, under `path`, carrying `errorMsg`. */
  function CreateGraphQLError(nodes: seq<Def>, path: seq<string>, errorMsg: string): (e: GraphQLError)
    ensures e.nodes == nodes && e.path == path && e.message == errorMsg
  {
    GraphQLError(nodes, path, errorMsg)
  }

  /** The validation context shared by all rules of a schema build; the
      only part of it this rule touches is the list of reported errors. */
  class SDLValidationContext {
    var errors: seq<GraphQLError>

    constructor ()
      ensures errors == []
    {
      errors := [];
    }

    method ReportError(e: GraphQLError)
      modifies this
      ensures errors == old(errors) + [e]
    {
      errors := errors + [e];
    }
  }
}
