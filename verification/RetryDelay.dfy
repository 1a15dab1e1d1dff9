/** How long to wait when the hosted sign-in asks to be retried (internal/auth/hosted_sso.go:935-956). */
module RetryDelay {
  import opened Text
  import opened Wrappers

  const MIN_SECONDS := 1
  const MAX_SECONDS := 3

  /** The number a Retry-After value of any length stands for, between one and three seconds; anything else is one. */
  function Delay(value: string): int {
    var n := ParseDigits(value);
    if n.None? || n.value < MIN_SECONDS then MIN_SECONDS else if n.value > MAX_SECONDS then MAX_SECONDS else n.value
  }

  lemma {:induction false} DigitsParse(s: string)
    ensures ParseDigits(s).Some? <==> s != "" && forall i | 0 <= i < |s| :: IsDigit(s[i])
    decreases |s|
  {
    if |s| > 1 {
      DigitsParse(s[..|s| - 1]);
    }
  }

  /** Leading zeros count for nothing, and behind the first other digit every further one makes the number at least ten. */
  lemma {:induction false} DigitsFrom(s: string, first: nat)
    requires s != "" && first <= |s| && (forall i | 0 <= i < |s| :: IsDigit(s[i]))
    requires (forall i | 0 <= i < first :: s[i] == '0') && (first < |s| ==> s[first] != '0')
    ensures ParseDigits(s).Some?
    ensures first == |s| ==> ParseDigits(s).value == 0
    ensures first == |s| - 1 ==> ParseDigits(s).value == s[first] as int - 48
    ensures first < |s| - 1 ==> ParseDigits(s).value >= 10
    ensures first < |s| ==> ParseDigits(s).value >= 1
    decreases |s|
  {
    DigitsParse(s);
    if |s| > 1 {
      DigitsFrom(s[..|s| - 1], if first < |s| then first else |s| - 1);
    }
  }

  /** Only the first digit that is not zero and the number of digits after it are looked at, so no value is too long. */
  method RetryDelay(value: string) returns (seconds: int)
    ensures seconds == Delay(value)
    ensures var n := ParseDigits(value);
            seconds == if n == Some(2) then 2 else if n.Some? && n.value >= 3 then 3 else 1
  {
    DigitsParse(value);
    if value == "" {
      return MIN_SECONDS;
    }
    var firstNonzero := -1;
    for i := 0 to |value|
      invariant -1 <= firstNonzero < i
      invariant forall k | 0 <= k < i :: IsDigit(value[k])
      invariant forall k | 0 <= k < (if firstNonzero == -1 then i else firstNonzero) :: value[k] == '0'
      invariant firstNonzero >= 0 ==> value[firstNonzero] != '0'
    {
      if value[i] < '0' || value[i] > '9' {
        return MIN_SECONDS;
      }
      if firstNonzero == -1 && value[i] != '0' {
        firstNonzero := i;
      }
    }
    DigitsFrom(value, if firstNonzero == -1 then |value| else firstNonzero);
    if firstNonzero == -1 {
      return MIN_SECONDS;
    }
    if |value| - firstNonzero > 1 || value[firstNonzero] > '3' {
      return MAX_SECONDS;
    }
    seconds := value[firstNonzero] as int - '0' as int;
  }
}
