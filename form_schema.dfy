/**
 * The values the two forms of the page submit, and the one rule of their
 * schemas that is stated in the page itself: a name must be at least three
 * characters long.
 */
module FormSchema {

  /** What the create form submits. */
  datatype CreateValues = CreateValues(name: string, email: string)

  /** What the update form submits; `id` names the record to update. */
  datatype UpdateValues = UpdateValues(id: int, name: string, email: string)

  /** A minimum-length string rule with the message shown when it fails. */
  datatype MinLength = MinLength(min: nat, message: string)

  /** The outcome of checking one field against its rule. */
  datatype Outcome = Pass | Fail(message: string)

  /** The `name` rule of the create schema. */
  const CreateNameRule := MinLength(3, "Name is required")

  /** The `name` rule of the update schema. */
  const UpdateNameRule := MinLength(3, "Name is required")

  /** Checks a string against a minimum-length rule. */
  function Check(rule: MinLength, value: string): (r: Outcome)
    ensures r.Pass? <==> |value| >= rule.min
    ensures r.Fail? ==> r.message == rule.message
  {
    if |value| < rule.min then Fail(rule.message) else Pass
  }

  /** Both schemas accept a name exactly when it has at least three characters. */
  lemma NameRulesAgree(name: string)
    ensures Check(CreateNameRule, name).Pass? <==> |name| >= 3
    ensures Check(UpdateNameRule, name).Pass? <==> |name| >= 3
    ensures Check(CreateNameRule, name) == Check(UpdateNameRule, name)
  {
  }
}
