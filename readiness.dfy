/** `checkApiKey`: a bounded poll for the injected credential. The key is inspected once per
    check; between two failing checks the code waits one 100 ms timer tick. The timer itself
    is not modelled: `keys[i]` is the value the i-th check observes. */
module Readiness {
  import opened Wrappers

  /** The most checks one call makes. */
  const MaxAttempts: nat := 30
  /** The delay, in milliseconds, scheduled between two checks. */
  const PollIntervalMs: nat := 100
  /** The value shipped in the configuration template. */
  const PlaceholderKey := "YOUR_API_KEY_HERE"

  /** The key is truthy (present and non-empty) and is not the placeholder. */
  predicate KeyValid(key: Option<string>)
  {
    key.Some? && key.value != "" && key.value != PlaceholderKey
  }

  /** Some check of a call observes a valid key. */
  predicate BecomesReady(keys: seq<Option<string>>)
    requires |keys| >= MaxAttempts
  {
    exists i :: 0 <= i < MaxAttempts && KeyValid(keys[i])
  }

  /** Returns whether the key became valid, how many checks were made and how many timer
      waits were scheduled. The waits add up to at most 2900 ms, and to exactly that when the
      key never becomes valid. */
  method CheckApiKey(keys: seq<Option<string>>) returns (ready: bool, checks: nat, waits: nat)
    requires |keys| >= MaxAttempts
    ensures 1 <= checks <= MaxAttempts && waits == checks - 1
    ensures forall j :: 0 <= j < checks - 1 ==> !KeyValid(keys[j])
    ensures ready <==> KeyValid(keys[checks - 1])
    ensures !ready ==> checks == MaxAttempts
    ensures ready <==> BecomesReady(keys)
    ensures KeyValid(keys[0]) ==> ready && checks == 1 && waits == 0
    ensures waits * PollIntervalMs <= (MaxAttempts - 1) * PollIntervalMs
    ensures !ready ==> waits * PollIntervalMs == (MaxAttempts - 1) * PollIntervalMs
  {
    var attempts := 0;
    checks, waits := 0, 0;
    ready := false;
    var done := false;
    while !done
      invariant 0 <= attempts <= MaxAttempts
      invariant done ==> 1 <= checks
      invariant checks == if done && ready then attempts + 1 else attempts
      invariant !done ==> attempts < MaxAttempts && waits == attempts
      invariant done ==> waits == checks - 1
      invariant done && !ready ==> attempts == MaxAttempts
      invariant ready ==> done && attempts < MaxAttempts && KeyValid(keys[attempts])
      invariant forall j :: 0 <= j < attempts ==> !KeyValid(keys[j])
      decreases MaxAttempts - attempts, !done
    {
      checks := checks + 1;
      if KeyValid(keys[attempts]) {
        ready, done := true, true;
      } else {
        attempts := attempts + 1;
        if attempts >= MaxAttempts {
          done := true;
        } else {
          waits := waits + 1;
        }
      }
    }
  }
}
