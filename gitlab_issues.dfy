/**
 * The GitLab issue list's request building: the base search parameters, the
 * rewriting of named query tokens (`label:x`, `-author:y`, ...) into request
 * parameters, the navigation title and the project URL taken from an issue URL.
 *
 * Tokenizing the query text and the GitLab clients are not part of this model:
 * the tokenized query is an input.
 */
module GitLabIssues {
  import opened Wrappers
  import opened Strings

  datatype IssueScope = CreatedByMe | AssignedToMe | AllScopes
  datatype IssueState = AllStates | Opened | Closed

  /** The enum's string value, which is what the request carries. */
  function ScopeName(s: IssueScope): string
  {
    match s
    case CreatedByMe => "created_by_me"
    case AssignedToMe => "assigned_to_me"
    case AllScopes => "all"
  }

  function StateName(s: IssueState): string
  {
    match s
    case AllStates => "all"
    case Opened => "opened"
    case Closed => "closed"
  }

  /** One named token: its name and its values, `None` when the value is falsy. */
  type NamedParam = (string, Option<seq<string>>)

  /** A tokenized query: the free text and the positive and negated named tokens, in key order. */
  datatype Query = Query(query: Option<string>, named: seq<NamedParam>, negativeNamed: seq<NamedParam>)

  /** `prefixed` */
  function Prefixed(text: string, isNegative: bool): string
  {
    if isNegative then "not[" + text + "]" else text
  }

  /** The unprefixed request key a token name writes under `scope`, if any. */
  function TargetKey(name: string, scope: IssueScope): (k: Option<string>)
    ensures name == "label" ==> k == Some("labels")
    ensures name == "milestone" ==> k == Some("milestone")
    ensures name == "author" ==> k == (if scope == AllScopes then Some("author_username") else None)
    ensures name == "assignee" ==> k == (if scope == AllScopes then Some("assignee_username") else None)
    ensures name !in {"label", "milestone", "author", "assignee"} ==> k.None?
  {
    if name == "label" then Some("labels")
    else if name == "author" then (if scope == AllScopes then Some("author_username") else None)
    else if name == "milestone" then Some("milestone")
    else if name == "assignee" then (if scope == AllScopes then Some("assignee_username") else None)
    else None
  }

  /** The request key a token writes: none for a falsy value or a name that writes nothing. */
  function WrittenKey(token: NamedParam, scope: IssueScope, isNegative: bool): (k: Option<string>)
    ensures k.Some? <==> token.1.Some? && TargetKey(token.0, scope).Some?
    ensures k.Some? ==> k.value == Prefixed(TargetKey(token.0, scope).value, isNegative)
  {
    if token.1.None? then None
    else match TargetKey(token.0, scope)
      case None => None
      case Some(key) => Some(Prefixed(key, isNegative))
  }

  /** The effect of one token on the request parameters. */
  function InjectOne(params: map<string, string>, token: NamedParam, scope: IssueScope, isNegative: bool): map<string, string>
  {
    match WrittenKey(token, scope, isNegative)
    case None => params
    case Some(key) => params[key := Join(token.1.value, ",")]
  }

  /** The request parameters after the tokens `named`, taken in order. */
  function Injected(params: map<string, string>, named: seq<NamedParam>, scope: IssueScope, isNegative: bool): map<string, string>
    decreases |named|
  {
    if |named| == 0 then params
    else InjectOne(Injected(params, named[..|named| - 1], scope, isNegative), named[|named| - 1], scope, isNegative)
  }

  /** A negated token writes under `not[...]`, a positive one under the bare key. */
  lemma WrittenKeyShape(token: NamedParam, scope: IssueScope, isNegative: bool)
    requires WrittenKey(token, scope, isNegative).Some?
    ensures var k := WrittenKey(token, scope, isNegative).value;
      if isNegative then StartsWith(k, "not[") && k[|k| - 1] == ']'
      else k in {"labels", "milestone", "author_username", "assignee_username"}
  {
    var k := WrittenKey(token, scope, isNegative).value;
    if isNegative {
      assert k == "not[" + TargetKey(token.0, scope).value + "]";
      assert k[..4] == "not[";
    }
  }

  /**
   * A key no token writes keeps its presence and its value: unknown names, falsy
   * values and author/assignee outside the `all` scope leave the parameters alone.
   */
  lemma {:induction false} InjectedFrame(params: map<string, string>, named: seq<NamedParam>, scope: IssueScope,
                                         isNegative: bool, key: string)
    requires forall i :: 0 <= i < |named| ==> WrittenKey(named[i], scope, isNegative) != Some(key)
    ensures key in Injected(params, named, scope, isNegative) <==> key in params
    ensures key in params ==> Injected(params, named, scope, isNegative)[key] == params[key]
    decreases |named|
  {
    if |named| > 0 {
      var prefix := named[..|named| - 1];
      assert forall i :: 0 <= i < |prefix| ==> prefix[i] == named[i];
      InjectedFrame(params, prefix, scope, isNegative, key);
    }
  }

  /** A written key holds the values, joined with ",", of the last token that writes it. */
  lemma {:induction false} InjectedLastWins(params: map<string, string>, named: seq<NamedParam>, scope: IssueScope,
                                            isNegative: bool, j: int)
    requires 0 <= j < |named| && WrittenKey(named[j], scope, isNegative).Some?
    requires forall i :: j < i < |named| ==> WrittenKey(named[i], scope, isNegative) != WrittenKey(named[j], scope, isNegative)
    ensures var key := WrittenKey(named[j], scope, isNegative).value;
      key in Injected(params, named, scope, isNegative) &&
      Injected(params, named, scope, isNegative)[key] == Join(named[j].1.value, ",")
  {
    var key := WrittenKey(named[j], scope, isNegative).value;
    var upTo := Injected(params, named[..j + 1], scope, isNegative);
    assert named[..j + 1][..j] == named[..j];
    assert key in upTo && upTo[key] == Join(named[j].1.value, ",");
    var rest := named[j + 1..];
    InjectedSplit(params, named[..j + 1], rest, scope, isNegative);
    assert named[..j + 1] + rest == named;
    InjectedFrame(upTo, rest, scope, isNegative, key);
  }

  /** Injecting two runs of tokens is injecting their concatenation. */
  lemma {:induction false} InjectedSplit(params: map<string, string>, a: seq<NamedParam>, b: seq<NamedParam>,
                                         scope: IssueScope, isNegative: bool)
    ensures Injected(params, a + b, scope, isNegative) == Injected(Injected(params, a, scope, isNegative), b, scope, isNegative)
    decreases |b|
  {
    if |b| == 0 {
      assert a + b == a;
    } else {
      var b' := b[..|b| - 1];
      assert (a + b)[..|a + b| - 1] == a + b';
      assert (a + b)[|a + b| - 1] == b[|b| - 1];
      InjectedSplit(params, a, b', scope, isNegative);
    }
  }

  /** The `requestParams` record, written in place. */
  class RequestParams {
    var entries: map<string, string>

    /** The base parameters of a search: `{state, scope, search: query || "", in: "title"}`. */
    constructor (state: IssueState, scope: IssueScope, query: Option<string>)
      ensures entries == map["state" := StateName(state), "scope" := ScopeName(scope),
                             "search" := query.GetOr(""), "in" := "title"]
    {
      entries := map["state" := StateName(state), "scope" := ScopeName(scope),
                     "search" := (if query.Some? && query.value != "" then query.value else ""), "in" := "title"];
    }
  }

  /** `injectQueryNamedParameters` */
  method InjectQueryNamedParameters(requestParams: RequestParams, query: Query, scope: IssueScope, isNegative: bool)
    modifies requestParams
    ensures requestParams.entries ==
      Injected(old(requestParams.entries), if isNegative then query.negativeNamed else query.named, scope, isNegative)
  {
    var namedParams := if isNegative then query.negativeNamed else query.named;
    for i := 0 to |namedParams|
      invariant requestParams.entries == Injected(old(requestParams.entries), namedParams[..i], scope, isNegative)
    {
      assert namedParams[..i + 1][..i] == namedParams[..i];
      var (name, value) := namedParams[i];
      if value.Some? {
        var values := value.value;
        if name == "label" {
          requestParams.entries := requestParams.entries[Prefixed("labels", isNegative) := Join(values, ",")];
        } else if name == "author" {
          if scope == AllScopes {
            requestParams.entries := requestParams.entries[Prefixed("author_username", isNegative) := Join(values, ",")];
          }
        } else if name == "milestone" {
          requestParams.entries := requestParams.entries[Prefixed("milestone", isNegative) := Join(values, ",")];
        } else if name == "assignee" {
          if scope == AllScopes {
            requestParams.entries := requestParams.entries[Prefixed("assignee_username", isNegative) := Join(values, ",")];
          }
        }
      }
    }
    assert namedParams[..|namedParams|] == namedParams;
  }

  /** No token, positive or negated, ever writes one of the four base keys. */
  lemma BaseKeysNeverWritten(token: NamedParam, scope: IssueScope, isNegative: bool, key: string)
    requires key in {"state", "scope", "search", "in"}
    ensures WrittenKey(token, scope, isNegative) != Some(key)
  {
    if WrittenKey(token, scope, isNegative).Some? {
      WrittenKeyShape(token, scope, isNegative);
      if isNegative {
        var k := WrittenKey(token, scope, isNegative).value;
        assert k[0] == 'n';
      }
    }
  }

  /**
   * The request `useSearch` sends: the base parameters, then the positive tokens,
   * then the negated ones. The base keys survive both injections.
   */
  method SearchRequestParams(qd: Query, state: IssueState, scope: IssueScope) returns (requestParams: RequestParams)
    ensures requestParams.entries ==
      Injected(Injected(map["state" := StateName(state), "scope" := ScopeName(scope),
                             "search" := qd.query.GetOr(""), "in" := "title"], qd.named, scope, false),
               qd.negativeNamed, scope, true)
    ensures forall key :: key in {"state", "scope", "search", "in"} ==> key in requestParams.entries
    ensures requestParams.entries["state"] == StateName(state) && requestParams.entries["scope"] == ScopeName(scope)
    ensures requestParams.entries["search"] == qd.query.GetOr("") && requestParams.entries["in"] == "title"
  {
    requestParams := new RequestParams(state, scope, qd.query);
    var base := requestParams.entries;
    InjectQueryNamedParameters(requestParams, qd, scope, false);
    var positive := requestParams.entries;
    InjectQueryNamedParameters(requestParams, qd, scope, true);
    forall key | key in {"state", "scope", "search", "in"}
      ensures key in requestParams.entries && requestParams.entries[key] == base[key]
    {
      forall i | 0 <= i < |qd.named|
        ensures WrittenKey(qd.named[i], scope, false) != Some(key)
      {
        BaseKeysNeverWritten(qd.named[i], scope, false, key);
      }
      forall i | 0 <= i < |qd.negativeNamed|
        ensures WrittenKey(qd.negativeNamed[i], scope, true) != Some(key)
      {
        BaseKeysNeverWritten(qd.negativeNamed[i], scope, true, key);
      }
      InjectedFrame(base, qd.named, scope, false, key);
      InjectedFrame(positive, qd.negativeNamed, scope, true, key);
    }
  }

  datatype Project = Project(fullPath: string)
  datatype Group = Group(fullPath: string)

  /** `navTitle`: a group wins over a project; with neither there is no title. */
  function NavTitle(project: Option<Project>, group: Option<Group>): (r: Option<string>)
    ensures r.None? <==> project.None? && group.None?
    ensures group.Some? ==> r == Some("Group Issues " + group.value.fullPath)
    ensures group.None? && project.Some? ==> r == Some("Issues " + project.value.fullPath)
  {
    if group.Some? then Some("Group Issues " + group.value.fullPath)
    else if project.Some? then Some("Issues " + project.value.fullPath)
    else None
  }

  /** The project URL inside an issue's web URL: the text before the first "/-/", when that lies past index 1. */
  function ProjectWebUrl(webUrl: string): (r: Option<string>)
    ensures r.Some? ==>
      |r.value| > 1 && StartsWith(webUrl, r.value) && OccursAt(webUrl, "/-/", |r.value|) &&
      forall i :: 0 <= i < |r.value| ==> !OccursAt(webUrl, "/-/", i)
    ensures r.None? <==>
      (forall i :: 0 <= i ==> !OccursAt(webUrl, "/-/", i)) || OccursAt(webUrl, "/-/", 0) || OccursAt(webUrl, "/-/", 1)
  {
    var index := IndexOf(webUrl, "/-/");
    if index > 1 then Some(webUrl[..index]) else None
  }
}
