// The IAM REST server's configuration and the clean-up of its OpenAPI document
// (pkg/iam/pkg/iamserver/rest/server.go).
module RestServer {
  import opened Wrappers
  import opened Strings

  const ServerLatestVersionString: string := "v1"

  /** The header that carries credentials (iam.AuthorizationMetadataKey). */
  const AuthorizationMetadataKey: string := "Authorization"

  datatype ServerV1Config = ServerV1Config(servePath: string)

  /** ServerConfig; a nil V1 is None. */
  datatype ServerConfig = ServerConfig(servePort: int, servePath: string, swaggerUIAssetsDir: string, v1: Option<ServerV1Config>)
  {
    /** Normalized: one trailing "/" comes off the serve path; nothing else changes. */
    function Normalized(): (r: ServerConfig)
      ensures r.servePort == servePort && r.swaggerUIAssetsDir == swaggerUIAssetsDir && r.v1 == v1
      ensures HasSuffix(servePath, "/") ==> r.servePath + "/" == servePath
      ensures !HasSuffix(servePath, "/") ==> r.servePath == servePath
    {
      this.(servePath := TrimSuffix(servePath, "/"))
    }

    /** APISpecServePath: the serve path followed by "/apidocs.json". */
    function APISpecServePath(): (r: string)
      ensures HasPrefix(r, servePath) && r[|servePath|..] == "/apidocs.json"
    {
      servePath + "/apidocs.json"
    }
  }

  /** Normalizing twice changes nothing more exactly when the serve path does not end in "//". */
  lemma NormalizedIdempotence(config: ServerConfig)
    ensures config.Normalized().Normalized() == config.Normalized() <==> !HasSuffix(config.servePath, "//")
  {
    var p := config.servePath;
    var n := config.Normalized().servePath;
    if HasSuffix(p, "//") {
      assert HasSuffix(n, "/") by {
        assert n == p[..|p| - 1];
        assert n[|n| - 1..] == p[|p| - 2..|p| - 1];
      }
      assert |config.Normalized().Normalized().servePath| < |n|;
    } else if HasSuffix(p, "/") {
      assert n == p[..|p| - 1];
      if |n| >= 1 {
        assert p[|p| - 2..] == [p[|p| - 2], p[|p| - 1]];
        assert n[|n| - 1..] == [p[|p| - 2]];
      }
    }
  }

  /** The API document is served beside the normalized serve path, with no doubled "/" when that path ended in one "/". */
  lemma APISpecOfNormalized(config: ServerConfig)
    requires HasSuffix(config.servePath, "/") && !HasSuffix(config.servePath, "//")
    ensures config.Normalized().APISpecServePath() == config.servePath + "apidocs.json"
  {
    var n := config.Normalized().servePath;
    assert n + "/" == config.servePath;
    assert n + "/apidocs.json" == (n + "/") + "apidocs.json";
  }

  /** The version 1 serve path: the configured one if set and non-empty, else servePath + "/v1". */
  function V1ServePath(config: ServerConfig, servePath: string): (r: string)
    ensures config.v1.Some? && config.v1.value.servePath != "" ==> r == config.v1.value.servePath
    ensures config.v1.None? || config.v1.value.servePath == "" ==> r == servePath + "/" + ServerLatestVersionString
  {
    var v1ServePath := if config.v1.Some? then config.v1.value.servePath else "";
    if v1ServePath == "" then servePath + "/v1" else v1ServePath
  }

  // ---------------------------------------------------------------------------------
  // OpenAPI document clean-up
  // ---------------------------------------------------------------------------------

  /** The fields of an OpenAPI parameter the clean-up reads. */
  datatype Parameter = Parameter(name: string, location: string, description: string)

  /** One security requirement {key: []}. */
  datatype SecurityRequirement = SecurityRequirement(scheme: string)

  datatype Operation = Operation(tags: seq<string>, parameters: seq<Parameter>, security: seq<SecurityRequirement>)

  /** A security definition with its key; the definitions come in the order Go's map iteration gave them. */
  datatype SecurityScheme = SecurityScheme(key: string, kind: string, name: string, location: string)

  /** A parameter is the credential of a scheme: its lowercased description starts with the key, and it is where the scheme says. */
  predicate IsCredentialOf(p: Parameter, s: SecurityScheme)
  {
    p.description != "" && HasPrefix(ToLower(p.description), s.key) &&
    ((s.kind == "basic" && p.name == AuthorizationMetadataKey && p.location == "header") ||
     ((s.kind == "apiKey" || s.kind == "accessCode") && p.name == s.name && p.location == s.location))
  }

  /** The requirements one parameter adds: one per scheme it is the credential of, in scheme order. */
  function RequirementsOf(p: Parameter, secDefs: seq<SecurityScheme>): (r: seq<SecurityRequirement>)
    ensures |r| <= |secDefs|
  {
    if secDefs == [] then []
    else
      var last := secDefs[|secDefs| - 1];
      RequirementsOf(p, secDefs[..|secDefs| - 1]) + (if IsCredentialOf(p, last) then [SecurityRequirement(last.key)] else [])
  }

  /** The parameters that are no scheme's credential, in their order. */
  function KeptParameters(params: seq<Parameter>, secDefs: seq<SecurityScheme>): (r: seq<Parameter>)
    ensures |r| <= |params|
  {
    if params == [] then []
    else
      var last := params[|params| - 1];
      KeptParameters(params[..|params| - 1], secDefs) + (if RequirementsOf(last, secDefs) == [] then [last] else [])
  }

  /** The requirements all the parameters add, parameter by parameter. */
  function AddedSecurity(params: seq<Parameter>, secDefs: seq<SecurityScheme>): (r: seq<SecurityRequirement>)
  {
    if params == [] then []
    else AddedSecurity(params[..|params| - 1], secDefs) + RequirementsOf(params[|params| - 1], secDefs)
  }

  /** What processOpenAPIPathOp makes of an operation: nil stays nil, a hidden one goes, any other loses its credential parameters to security requirements. */
  function ProcessedOperation(op: Option<Operation>, secDefs: seq<SecurityScheme>): (r: Option<Operation>)
  {
    if op.None? || "hidden" in op.value.tags then None
    else Some(op.value.(parameters := KeptParameters(op.value.parameters, secDefs),
                        security := op.value.security + AddedSecurity(op.value.parameters, secDefs)))
  }

  /** processOpenAPIPathOp. */
  method ProcessOpenAPIPathOp(op: Option<Operation>, secDefs: seq<SecurityScheme>) returns (r: Option<Operation>)
    ensures op.None? ==> r.None?
    ensures op.Some? && "hidden" in op.value.tags ==> r.None?
    ensures r == ProcessedOperation(op, secDefs)
  {
    if op.None? {
      return None;
    }
    var hidden := HasHiddenTag(op.value.tags);
    if hidden {
      return None;
    }
    var updatedParams, security := ProcessParameters(op.value.parameters, op.value.security, secDefs);
    return Some(op.value.(parameters := updatedParams, security := security));
  }

  /** The loop over an operation's parameters: credentials become security requirements, the others are kept. */
  method ProcessParameters(params: seq<Parameter>, security0: seq<SecurityRequirement>, secDefs: seq<SecurityScheme>)
    returns (updatedParams: seq<Parameter>, security: seq<SecurityRequirement>)
    ensures updatedParams == KeptParameters(params, secDefs)
    ensures security == security0 + AddedSecurity(params, secDefs)
  {
    security := security0;
    updatedParams := [];
    for i := 0 to |params|
      invariant updatedParams == KeptParameters(params[..i], secDefs)
      invariant security == security0 + AddedSecurity(params[..i], secDefs)
    {
      var p := params[i];
      var added := CredentialRequirements(p, secDefs);
      assert params[..i + 1][..i] == params[..i];
      assert AddedSecurity(params[..i + 1], secDefs) == AddedSecurity(params[..i], secDefs) + added;
      security := security + added;
      if added == [] {
        updatedParams := updatedParams + [p];
      }
    }
    assert params[..|params|] == params;
  }

  /** The loop over the tags: whether one of them is "hidden". */
  method HasHiddenTag(tags: seq<string>) returns (hidden: bool)
    ensures hidden <==> "hidden" in tags
  {
    for i := 0 to |tags|
      invariant "hidden" !in tags[..i]
    {
      if tags[i] == "hidden" {
        return true;
      }
      assert tags[..i + 1] == tags[..i] + [tags[i]];
    }
    assert tags[..|tags|] == tags;
    return false;
  }

  /** The inner loop over the security definitions for one parameter. */
  method CredentialRequirements(p: Parameter, secDefs: seq<SecurityScheme>) returns (added: seq<SecurityRequirement>)
    ensures added == RequirementsOf(p, secDefs)
  {
    added := [];
    if p.description == "" {
      assert forall j :: 0 <= j <= |secDefs| ==> RequirementsOf(p, secDefs[..j]) == [] by {
        forall j | 0 <= j <= |secDefs|
          ensures RequirementsOf(p, secDefs[..j]) == []
        {
          NoDescriptionNoRequirements(p, secDefs[..j]);
        }
      }
      assert secDefs[..|secDefs|] == secDefs;
      return;
    }
    var lowerDesc := ToLower(p.description);
    for j := 0 to |secDefs|
      invariant added == RequirementsOf(p, secDefs[..j])
    {
      var secDef := secDefs[j];
      assert secDefs[..j + 1][..j] == secDefs[..j];
      if HasPrefix(lowerDesc, secDef.key) {
        if secDef.kind == "basic" && p.name == AuthorizationMetadataKey && p.location == "header" {
          added := added + [SecurityRequirement(secDef.key)];
          continue;
        }
        if (secDef.kind == "apiKey" || secDef.kind == "accessCode") && p.name == secDef.name && p.location == secDef.location {
          added := added + [SecurityRequirement(secDef.key)];
          continue;
        }
      }
    }
    assert secDefs[..|secDefs|] == secDefs;
  }

  lemma {:induction false} NoDescriptionNoRequirements(p: Parameter, secDefs: seq<SecurityScheme>)
    requires p.description == ""
    ensures RequirementsOf(p, secDefs) == []
  {
    if secDefs != [] {
      NoDescriptionNoRequirements(p, secDefs[..|secDefs| - 1]);
    }
  }

  /** A path item's seven operations. */
  datatype PathItem = PathItem(
    get: Option<Operation>, put: Option<Operation>, post: Option<Operation>, delete: Option<Operation>,
    options: Option<Operation>, head: Option<Operation>, patch: Option<Operation>)

  /** processOpenAPIPath: the same clean-up applied to all seven operations. */
  method ProcessOpenAPIPath(pathItem: PathItem, secDefs: seq<SecurityScheme>) returns (r: PathItem)
    ensures r == PathItem(
      ProcessedOperation(pathItem.get, secDefs), ProcessedOperation(pathItem.put, secDefs),
      ProcessedOperation(pathItem.post, secDefs), ProcessedOperation(pathItem.delete, secDefs),
      ProcessedOperation(pathItem.options, secDefs), ProcessedOperation(pathItem.head, secDefs),
      ProcessedOperation(pathItem.patch, secDefs))
  {
    r := pathItem;
    var get := ProcessOpenAPIPathOp(pathItem.get, secDefs);
    r := r.(get := get);
    var put := ProcessOpenAPIPathOp(pathItem.put, secDefs);
    r := r.(put := put);
    var post := ProcessOpenAPIPathOp(pathItem.post, secDefs);
    r := r.(post := post);
    var delete := ProcessOpenAPIPathOp(pathItem.delete, secDefs);
    r := r.(delete := delete);
    var options := ProcessOpenAPIPathOp(pathItem.options, secDefs);
    r := r.(options := options);
    var head := ProcessOpenAPIPathOp(pathItem.head, secDefs);
    r := r.(head := head);
    var patch := ProcessOpenAPIPathOp(pathItem.patch, secDefs);
    r := r.(patch := patch);
  }

  // ---------------------------------------------------------------------------------
  // Properties of the clean-up
  // ---------------------------------------------------------------------------------

  /** The clean-up decides parameter by parameter: it distributes over concatenation, so the kept ones keep their order. */
  lemma {:induction false} KeptParametersConcat(a: seq<Parameter>, b: seq<Parameter>, secDefs: seq<SecurityScheme>)
    ensures KeptParameters(a + b, secDefs) == KeptParameters(a, secDefs) + KeptParameters(b, secDefs)
    decreases |b|
  {
    if b == [] {
      assert a + b == a;
    } else {
      var b' := b[..|b| - 1];
      FrontOfConcat(a, b);
      KeptParametersConcat(a, b', secDefs);
    }
  }

  /** The same for the requirements they add. */
  lemma {:induction false} AddedSecurityConcat(a: seq<Parameter>, b: seq<Parameter>, secDefs: seq<SecurityScheme>)
    ensures AddedSecurity(a + b, secDefs) == AddedSecurity(a, secDefs) + AddedSecurity(b, secDefs)
    decreases |b|
  {
    if b == [] {
      assert a + b == a;
    } else {
      var b' := b[..|b| - 1];
      FrontOfConcat(a, b);
      AddedSecurityConcat(a, b', secDefs);
    }
  }

  lemma FrontOfConcat(a: seq<Parameter>, b: seq<Parameter>)
    requires b != []
    ensures (a + b)[..|a + b| - 1] == a + b[..|b| - 1] && (a + b)[|a + b| - 1] == b[|b| - 1]
  {
  }

  /** A single parameter is kept exactly when it is no scheme's credential, and then it adds nothing. */
  lemma KeptParameterSingle(p: Parameter, secDefs: seq<SecurityScheme>)
    ensures KeptParameters([p], secDefs) == (if RequirementsOf(p, secDefs) == [] then [p] else [])
    ensures AddedSecurity([p], secDefs) == RequirementsOf(p, secDefs)
  {
    assert [p][..0] == [];
  }

  /** A requirement comes from a scheme the parameter is the credential of, and every such scheme gives one. */
  lemma {:induction false} RequirementsOfSchemes(p: Parameter, secDefs: seq<SecurityScheme>)
    ensures RequirementsOf(p, secDefs) == [] <==> forall j :: 0 <= j < |secDefs| ==> !IsCredentialOf(p, secDefs[j])
  {
    if secDefs != [] {
      var front := secDefs[..|secDefs| - 1];
      RequirementsOfSchemes(p, front);
      assert forall j :: 0 <= j < |front| ==> front[j] == secDefs[j];
    }
  }

  /** Every parameter with an empty description is kept. */
  lemma {:induction false} EmptyDescriptionKept(params: seq<Parameter>, secDefs: seq<SecurityScheme>, i: nat)
    requires i < |params| && params[i].description == ""
    ensures params[i] in KeptParameters(params, secDefs)
  {
    var p := params[i];
    NoDescriptionNoRequirements(p, secDefs);
    assert params == params[..i] + [p] + params[i + 1..];
    KeptParametersConcat(params[..i] + [p], params[i + 1..], secDefs);
    KeptParametersConcat(params[..i], [p], secDefs);
    KeptParameterSingle(p, secDefs);
  }

  /** Each removed parameter adds at least one security requirement. */
  lemma {:induction false} RemovedParametersAddSecurity(params: seq<Parameter>, secDefs: seq<SecurityScheme>)
    ensures |AddedSecurity(params, secDefs)| >= |params| - |KeptParameters(params, secDefs)|
  {
    if params != [] {
      RemovedParametersAddSecurity(params[..|params| - 1], secDefs);
    }
  }

  /** Kept parameters were there before, and are no scheme's credential. */
  lemma {:induction false} KeptParametersAreNotCredentials(params: seq<Parameter>, secDefs: seq<SecurityScheme>)
    ensures forall p :: p in KeptParameters(params, secDefs) ==> p in params && RequirementsOf(p, secDefs) == []
  {
    if params != [] {
      var front := params[..|params| - 1];
      KeptParametersAreNotCredentials(front, secDefs);
      assert forall p :: p in front ==> p in params;
    }
  }

  /** Without security definitions, an operation that is not hidden is left as it was. */
  lemma {:induction false} NoSchemesNoChange(params: seq<Parameter>)
    ensures KeptParameters(params, []) == params && AddedSecurity(params, []) == []
  {
    if params != [] {
      NoSchemesNoChange(params[..|params| - 1]);
    }
  }
}
