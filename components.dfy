/**
 * The components of a mapping, as the automation interface presents them, and
 * the three searches over them: by name, the first source and the first target.
 * Each search walks the components in order, returns the first one that
 * matches, and throws an "instance not found" error when none does.
 */
module Components {
  import opened Outcomes

  /** The usage kind of a component; only "instance" matters to the searches. */
  datatype UsageKind = Instance | OtherUsage

  /**
   * A component of a mapping. Its name, usage kind and connections are read
   * only; its bound input and output files are properties the program sets.
   */
  class Component {
    const name: string
    const usageKind: UsageKind
    const hasOutgoingConnections: bool
    const hasIncomingConnections: bool
    var inputInstanceFile: string
    var outputInstanceFile: string

    constructor (name: string, usageKind: UsageKind, hasOutgoing: bool, hasIncoming: bool,
                 inputFile: string, outputFile: string)
      ensures this.name == name && this.usageKind == usageKind
      ensures hasOutgoingConnections == hasOutgoing && hasIncomingConnections == hasIncoming
      ensures inputInstanceFile == inputFile && outputInstanceFile == outputFile
    {
      this.name := name;
      this.usageKind := usageKind;
      hasOutgoingConnections := hasOutgoing;
      hasIncomingConnections := hasIncoming;
      inputInstanceFile := inputFile;
      outputInstanceFile := outputFile;
    }
  }

  /** What a search looks for. */
  datatype Query = ByName(componentName: string) | FirstSource | FirstTarget

  /** A source has connections on its right side, a target on its left side. */
  predicate Matches(c: Component, q: Query) {
    match q
    case ByName(n) => c.name == n
    case FirstSource => c.usageKind == Instance && c.hasOutgoingConnections
    case FirstTarget => c.usageKind == Instance && c.hasIncomingConnections
  }

  /** Index i holds a match and no earlier index does. */
  predicate IsFirstMatch(components: seq<Component>, q: Query, i: int) {
    0 <= i < |components| && Matches(components[i], q) &&
    forall j :: 0 <= j < i ==> !Matches(components[j], q)
  }

  predicate NoMatch(components: seq<Component>, q: Query) {
    forall j :: 0 <= j < |components| ==> !Matches(components[j], q)
  }

  /** The index of the first match in sequence order, if there is one. */
  function FirstMatch(components: seq<Component>, q: Query): (r: Option<nat>)
    ensures r.Some? ==> IsFirstMatch(components, q, r.value)
    ensures r.None? <==> NoMatch(components, q)
  {
    if components == [] then None
    else if Matches(components[0], q) then Some(0)
    else match FirstMatch(components[1..], q)
      case None => None
      case Some(i) => Some(i + 1)
  }

  /** The exception the searches throw when nothing matches. */
  datatype LookupError = InstanceNotFound(message: string)

  function NotFound(q: Query): LookupError {
    match q
    case ByName(n) => InstanceNotFound("Cannot find component with name " + n)
    case FirstSource => InstanceNotFound("Cannot find a source component")
    case FirstTarget => InstanceNotFound("Cannot find a target component")
  }

  /** What a search returns: the first match, or the not-found error. */
  function Select(components: seq<Component>, q: Query): (r: Result<Component, LookupError>)
    ensures r.Ok? ==> exists i :: IsFirstMatch(components, q, i) && components[i] == r.value
    ensures r.Err? <==> NoMatch(components, q)
    ensures r.Err? ==> r.error == NotFound(q)
  {
    match FirstMatch(components, q)
    case Some(i) => Ok(components[i])
    case None => Err(NotFound(q))
  }

  /** The foreach loop with early return shared by the three searches. */
  method FirstMatchIndex(components: seq<Component>, q: Query) returns (r: Option<nat>)
    ensures r == FirstMatch(components, q)
  {
    for i := 0 to |components|
      invariant forall j :: 0 <= j < i ==> !Matches(components[j], q)
    {
      if Matches(components[i], q) {
        return Some(i);
      }
    }
    return None;
  }

  method Search(components: seq<Component>, q: Query) returns (r: Result<Component, LookupError>)
    ensures r == Select(components, q)
  {
    var found := FirstMatchIndex(components, q);
    match found
    case Some(i) => r := Ok(components[i]);
    case None => r := Err(NotFound(q));
  }

  /** The first component whose name equals componentName. */
  method FindComponent(components: seq<Component>, componentName: string)
    returns (r: Result<Component, LookupError>)
    ensures r == Select(components, ByName(componentName))
    ensures r.Ok? ==> exists i :: IsFirstMatch(components, ByName(componentName), i) && components[i] == r.value
    ensures r.Err? <==> forall j :: 0 <= j < |components| ==> components[j].name != componentName
    ensures r.Err? ==> r.error == InstanceNotFound("Cannot find component with name " + componentName)
  {
    r := Search(components, ByName(componentName));
  }

  /** The first instance component that has outgoing connections. */
  method GetFirstSourceComponent(components: seq<Component>) returns (r: Result<Component, LookupError>)
    ensures r == Select(components, FirstSource)
    ensures r.Ok? ==> exists i :: IsFirstMatch(components, FirstSource, i) && components[i] == r.value
    ensures r.Ok? ==> r.value.usageKind == Instance && r.value.hasOutgoingConnections
    ensures r.Err? <==> forall j :: 0 <= j < |components| ==>
                          !(components[j].usageKind == Instance && components[j].hasOutgoingConnections)
    ensures r.Err? ==> r.error == InstanceNotFound("Cannot find a source component")
  {
    r := Search(components, FirstSource);
  }

  /** The first instance component that has incoming connections. */
  method GetFirstTargetComponent(components: seq<Component>) returns (r: Result<Component, LookupError>)
    ensures r == Select(components, FirstTarget)
    ensures r.Ok? ==> exists i :: IsFirstMatch(components, FirstTarget, i) && components[i] == r.value
    ensures r.Ok? ==> r.value.usageKind == Instance && r.value.hasIncomingConnections
    ensures r.Err? <==> forall j :: 0 <= j < |components| ==>
                          !(components[j].usageKind == Instance && components[j].hasIncomingConnections)
    ensures r.Err? ==> r.error == InstanceNotFound("Cannot find a target component")
  {
    r := Search(components, FirstTarget);
  }

  /** The search only looks at what comes before the first match. */
  lemma {:induction false} SelectIgnoresSuffix(components: seq<Component>, rest: seq<Component>, q: Query)
    requires !NoMatch(components, q)
    ensures Select(components + rest, q) == Select(components, q)
  {
    var i := FirstMatch(components, q).value;
    assert IsFirstMatch(components + rest, q, i);
    FirstMatchUnique(components + rest, q, i, FirstMatch(components + rest, q).value);
  }

  lemma FirstMatchUnique(components: seq<Component>, q: Query, i: int, k: int)
    requires IsFirstMatch(components, q, i) && IsFirstMatch(components, q, k)
    ensures i == k
  {
  }
}
