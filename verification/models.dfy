/** The chat models and roles: the enum-to-name tables of both clients. */
module Models {
  import opened Outcomes

  /** The `Model` enum.  A C# enum variable can hold any integer, so a value
      outside the five declared ones is kept as `Undeclared`. */
  datatype Model = Gpt4oMini | Llama3370b | Claude3Haiku | O3Mini | MistralSmall3 | Undeclared(code: int)

  /** The `ChatRole` enum, with the same provision for undeclared values. */
  datatype ChatRole = User | Assistant | UndeclaredRole(code: int)

  const DefaultModelName: string := "gpt-4o-mini"

  /** `Models.GetModel`: the provider's identifier of a model. */
  function GetModel(model: Model): (r: string)
    ensures r == DefaultModelName <==> model == Gpt4oMini || model.Undeclared?
    ensures r in ["gpt-4o-mini", "meta-llama/Llama-3.3-70B-Instruct-Turbo", "claude-3-haiku-20240307",
                  "o3-mini", "mistralai/Mistral-Small-24B-Instruct-2501"]
  {
    match model
    case Gpt4oMini => "gpt-4o-mini"
    case Llama3370b => "meta-llama/Llama-3.3-70B-Instruct-Turbo"
    case Claude3Haiku => "claude-3-haiku-20240307"
    case O3Mini => "o3-mini"
    case MistralSmall3 => "mistralai/Mistral-Small-24B-Instruct-2501"
    case Undeclared(_) => "gpt-4o-mini"
  }

  /** `Extentions.ToModelName`: the same table written a second time. */
  function ToModelName(model: Model): (r: string)
    ensures r == GetModel(model)
    ensures model.Undeclared? ==> r == DefaultModelName
  {
    var mistralSmall3 := "mistralai/Mistral-Small-24B-Instruct-2501";
    var o3Mini := "o3-mini";
    var claude3Haiku := "claude-3-haiku-20240307";
    var llama3370b := "meta-llama/Llama-3.3-70B-Instruct-Turbo";
    var gpt4oMini := "gpt-4o-mini";
    match model
    case Gpt4oMini => gpt4oMini
    case Llama3370b => llama3370b
    case Claude3Haiku => claude3Haiku
    case O3Mini => o3Mini
    case MistralSmall3 => mistralSmall3
    case Undeclared(_) => gpt4oMini
  }

  /** The identifiers of the five declared models. */
  lemma ModelTable()
    ensures GetModel(Gpt4oMini) == "gpt-4o-mini"
    ensures GetModel(Llama3370b) == "meta-llama/Llama-3.3-70B-Instruct-Turbo"
    ensures GetModel(Claude3Haiku) == "claude-3-haiku-20240307"
    ensures GetModel(O3Mini) == "o3-mini"
    ensures GetModel(MistralSmall3) == "mistralai/Mistral-Small-24B-Instruct-2501"
    ensures forall code :: GetModel(Undeclared(code)) == DefaultModelName
  {
  }

  /** Distinct declared models have distinct identifiers. */
  lemma GetModelInjective(a: Model, b: Model)
    requires !a.Undeclared? && !b.Undeclared? && a != b
    ensures GetModel(a) != GetModel(b)
  {
  }

  /** `Extentions.ToRole`: the wire name of a role; any other value throws. */
  function ToRole(role: ChatRole): (r: Result<string>)
    ensures r.Ok? <==> !role.UndeclaredRole?
    ensures role == User ==> r == Ok("user")
    ensures role == Assistant ==> r == Ok("assistant")
    ensures r.Fail? ==> r.error == RuntimeError(NotImplemented)
  {
    match role
    case User => Ok("user")
    case Assistant => Ok("assistant")
    case UndeclaredRole(_) => Fail(RuntimeError(NotImplemented))
  }

  lemma ToRoleInjective(a: ChatRole, b: ChatRole)
    requires ToRole(a).Ok? && ToRole(b).Ok? && ToRole(a) == ToRole(b)
    ensures a == b
  {
  }

  /** The synchronous client's table from short model names to identifiers. */
  const ChatModels: map<string, string> := map[
    "gpt-4o-mini" := "gpt-4o-mini",
    "llama-3.3-70b" := "meta-llama/Llama-3.3-70B-Instruct-Turbo",
    "claude-3-haiku" := "claude-3-haiku-20240307",
    "o3-mini" := "o3-mini",
    "mistral-small-3" := "mistralai/Mistral-Small-24B-Instruct-2501"]

  /** The short name under which a declared model is offered. */
  function ShortName(model: Model): string
    requires !model.Undeclared?
  {
    match model
    case Gpt4oMini => "gpt-4o-mini"
    case Llama3370b => "llama-3.3-70b"
    case Claude3Haiku => "claude-3-haiku"
    case O3Mini => "o3-mini"
    case MistralSmall3 => "mistral-small-3"
  }

  /** The model a synchronous chat request names: an unknown short name falls
      back to "gpt-4o-mini". */
  function ResolveModel(name: string): (r: string)
    ensures r in ChatModels.Values
    ensures name !in ChatModels ==> r == DefaultModelName
    ensures name in ChatModels ==> r == ChatModels[name]
  {
    var known := if name in ChatModels then name else DefaultModelName;
    ChatModels[known]
  }

  /** The two clients agree: each declared model's short name resolves to the
      identifier `GetModel` gives it, and the table holds nothing else. */
  lemma TablesAgree()
    ensures forall m: Model :: !m.Undeclared? ==> ShortName(m) in ChatModels && ChatModels[ShortName(m)] == GetModel(m)
    ensures forall name :: name in ChatModels ==> exists m: Model :: !m.Undeclared? && ShortName(m) == name
    ensures ChatModels.Values == set m | m in [Gpt4oMini, Llama3370b, Claude3Haiku, O3Mini, MistralSmall3] :: GetModel(m)
  {
    forall name | name in ChatModels ensures exists m: Model :: !m.Undeclared? && ShortName(m) == name {
      if name == "gpt-4o-mini" { assert ShortName(Gpt4oMini) == name; }
      else if name == "llama-3.3-70b" { assert ShortName(Llama3370b) == name; }
      else if name == "claude-3-haiku" { assert ShortName(Claude3Haiku) == name; }
      else if name == "o3-mini" { assert ShortName(O3Mini) == name; }
      else { assert ShortName(MistralSmall3) == name; }
    }
  }
}
