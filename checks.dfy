/**
 * The `{ valid | safe, message }` results of the ingestion validators and
 * security checks. Each of them runs a fixed list of checks in order
 * and returns at the first one that fails, so it is a list of rules
 * read up to its first failure.
 */
module Checks {
  import opened JsStrings

  /** `{ valid: boolean; message: string }` and `{ safe: boolean; message: string }`. */
  datatype Verdict = Verdict(ok: bool, message: string)

  const Pass := Verdict(true, "")

  /** One early-return check: it lets the input through when `passes`, and otherwise answers `message`. */
  datatype Rule = Rule(passes: bool, message: string)

  /** The verdict of running `rules` in order and stopping at the first that fails. */
  function FirstFailure(rules: seq<Rule>): (r: Verdict)
    ensures r.ok <==> forall k | 0 <= k < |rules| :: rules[k].passes
    ensures r.ok ==> r == Pass
    ensures !r.ok ==> exists k | 0 <= k < |rules| ::
      !rules[k].passes && r.message == rules[k].message && forall j | 0 <= j < k :: rules[j].passes
  {
    if rules == [] then Pass
    else if !rules[0].passes then Verdict(false, rules[0].message)
    else
      var r := FirstFailure(rules[1..]);
      assert forall k | 1 <= k < |rules| :: rules[k] == rules[1..][k - 1];
      r
  }

  /** The rule that fails first decides the message, whatever the rules after it say. */
  lemma {:induction false} FirstFailureAt(rules: seq<Rule>, k: nat)
    requires k < |rules| && !rules[k].passes
    requires forall j | 0 <= j < k :: rules[j].passes
    ensures FirstFailure(rules) == Verdict(false, rules[k].message)
  {
    if k > 0 {
      FirstFailureAt(rules[1..], k - 1);
    }
  }

  /** `${name} 长度超过限制 (${maxLength})`. */
  function TooLongMessage(name: string, maxLength: nat): string {
    name + " 长度超过限制 (" + NatToString(maxLength) + ")"
  }

  /** `check.field && check.field.length > check.maxLength` fails; an absent field has length 0 and passes. */
  function LengthRule(field: string, name: string, maxLength: nat): (r: Rule)
    ensures r.passes <==> |field| <= maxLength
  {
    Rule(|field| <= maxLength, TooLongMessage(name, maxLength))
  }
}
