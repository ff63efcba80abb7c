/**
 * The errors the recipe service raises, and the messages they carry.
 */
module LlmErrors {
  import opened Values
  import UsageLedger

  datatype Error =
    | UsageLimitExceeded          // LlmUsageLimitExceeded
    | ParseError                  // JSON::ParserError on the reply text
    | MissingKeys(keys: seq<string>)  // the reply's recipe lacks required keys
    | UnreadableIngredients       // `ingredients` is not a list of objects
    | RecordInvalid               // ActiveRecord::RecordInvalid inside the transaction

  datatype Result<T> = Ok(value: T) | Err(error: Error)

  /** `parts.join(sep)`. */
  function Join(parts: seq<string>, sep: string): string {
    if parts == [] then ""
    else if |parts| == 1 then parts[0]
    else parts[0] + sep + Join(parts[1..], sep)
  }

  /** Every joined part occurs in the joined text. */
  lemma {:induction false} JoinContains(parts: seq<string>, sep: string, k: nat)
    requires k < |parts|
    ensures Contains(Join(parts, sep), parts[k])
  {
    if |parts| == 1 {
      ContainsInfix("", parts[0], "");
      assert "" + parts[0] + "" == parts[0];
    } else if k == 0 {
      ContainsInfix("", parts[0], sep + Join(parts[1..], sep));
      assert "" + parts[0] + (sep + Join(parts[1..], sep)) == Join(parts, sep);
    } else {
      JoinContains(parts[1..], sep, k - 1);
      ContainsExtend(parts[0] + sep, Join(parts[1..], sep), "", parts[k]);
      assert parts[0] + sep + Join(parts[1..], sep) + "" == Join(parts, sep);
    }
  }

  const LIMIT_PREFIX := "Daily AI usage limit"
  const MISSING_PREFIX := "Missing keys in recipe"

  /** The message of the raised exception. */
  function Message(e: Error): (m: string)
    ensures e.UsageLimitExceeded? ==> StartsWith(m, LIMIT_PREFIX)
    ensures e.MissingKeys? ==> StartsWith(m, MISSING_PREFIX)
    ensures e.MissingKeys? ==> forall k :: 0 <= k < |e.keys| ==> Contains(m, e.keys[k])
  {
    match e
    case UsageLimitExceeded =>
      LIMIT_PREFIX + " of " + IntText(UsageLedger.DAILY_LIMIT) + " requests reached"
    case ParseError => "unexpected token in the reply"
    case MissingKeys(keys) =>
      var m := MISSING_PREFIX + ": " + Join(keys, ", ");
      assert forall k :: 0 <= k < |keys| ==> Contains(m, keys[k]) by {
        forall k | 0 <= k < |keys| ensures Contains(m, keys[k]) {
          JoinContains(keys, ", ", k);
          ContainsExtend(MISSING_PREFIX + ": ", Join(keys, ", "), "", keys[k]);
          assert MISSING_PREFIX + ": " + Join(keys, ", ") + "" == m;
        }
      }
      m
    case UnreadableIngredients => "ingredients are not a list of objects"
    case RecordInvalid => "Validation failed"
  }
}
