/** Errors shown to the user and the retry wrapper
    (frontend/src/utils/errorHandler.ts). The Korean user-facing texts are
    represented by the category they belong to. */
module ErrorHandler {
  import opened Options
  import opened JsStrings

  /** An `Error`, or an `AppError` with its extra fields. */
  datatype Failure =
    | PlainError(message: string)
    | AppError(message: string, code: string, recoverable: bool, userMessage: Option<string>)

  /** `new AppError(message, code, recoverable?, userMessage?)`: an omitted
      `recoverable` is true. */
  function NewAppError(message: string, code: string, recoverable: Option<bool>, userMessage: Option<string>): (e: Failure)
    ensures e.AppError? && e.message == message && e.code == code && e.userMessage == userMessage
    ensures e.recoverable <==> recoverable != Some(false)
    ensures ErrorName(e) == "AppError"
  {
    AppError(message, code, if recoverable.Some? then recoverable.value else true, userMessage)
  }

  /** `error.name` */
  function ErrorName(e: Failure): string
  {
    if e.AppError? then "AppError" else "Error"
  }

  /** The fixed messages `getUserFriendlyMessage` chooses from. */
  datatype Category = Network | NotFound | Permission | Timeout | Invalid | Generic

  datatype FriendlyMessage = Custom(text: string) | Standard(category: Category)

  /** The keyword tests of `getUserFriendlyMessage`, in order, on an
      already lower-cased message. */
  function Classify(m: string): (c: Category)
    ensures c == Network <==> Contains(m, "network") || Contains(m, "fetch")
    ensures c == NotFound ==> Contains(m, "not found") || Contains(m, "404")
    ensures c == Permission ==> Contains(m, "permission") || Contains(m, "unauthorized")
    ensures c == Timeout ==> Contains(m, "timeout")
    ensures c == Invalid ==> Contains(m, "validation") || Contains(m, "invalid")
    ensures c == Generic <==>
      !Contains(m, "network") && !Contains(m, "fetch") && !Contains(m, "not found") && !Contains(m, "404")
      && !Contains(m, "permission") && !Contains(m, "unauthorized") && !Contains(m, "timeout")
      && !Contains(m, "validation") && !Contains(m, "invalid")
  {
    if Contains(m, "network") || Contains(m, "fetch") then Network
    else if Contains(m, "not found") || Contains(m, "404") then NotFound
    else if Contains(m, "permission") || Contains(m, "unauthorized") then Permission
    else if Contains(m, "timeout") then Timeout
    else if Contains(m, "validation") || Contains(m, "invalid") then Invalid
    else Generic
  }

  /** `getUserFriendlyMessage(error)`: a non-empty `userMessage` of an
      `AppError` wins; otherwise the lower-cased message is classified. */
  function UserFriendlyMessage(e: Failure): (r: FriendlyMessage)
    ensures r.Custom? <==> e.AppError? && e.userMessage.Some? && e.userMessage.value != ""
    ensures r.Custom? ==> r.text == e.userMessage.value && r.text != ""
    ensures r.Standard? ==> r.category == Classify(ToLower(e.message))
  {
    if e.AppError? && e.userMessage.Some? && e.userMessage.value != "" then Custom(e.userMessage.value)
    else Standard(Classify(ToLower(e.message)))
  }

  /** A classification rule: any of the keywords selects the category. */
  datatype Rule = Rule(keywords: seq<string>, category: Category)

  /** The rules in priority order. */
  function Rules(): seq<Rule>
  {
    [ Rule(["network", "fetch"], Network),
      Rule(["not found", "404"], NotFound),
      Rule(["permission", "unauthorized"], Permission),
      Rule(["timeout"], Timeout),
      Rule(["validation", "invalid"], Invalid) ]
  }

  /** The message contains at least one of the keywords. */
  predicate ContainsAny(m: string, keywords: seq<string>)
  {
    keywords != [] && (Contains(m, keywords[0]) || ContainsAny(m, keywords[1..]))
  }

  predicate Matches(r: Rule, m: string)
  {
    ContainsAny(m, r.keywords)
  }

  /** The category of the first rule that matches, `Generic` when none does. */
  function FirstMatch(rules: seq<Rule>, m: string): (c: Category)
    ensures c == Generic || exists i :: 0 <= i < |rules| && rules[i].category == c
  {
    if rules == [] then Generic
    else if Matches(rules[0], m) then rules[0].category
    else FirstMatch(rules[1..], m)
  }

  /** The chain of tests is the first-match-wins reading of the rule list. */
  lemma ClassifyIsFirstMatch(m: string)
    ensures Classify(m) == FirstMatch(Rules(), m)
  {
    var r4 := [Rule(["validation", "invalid"], Invalid)];
    var r3 := [Rule(["timeout"], Timeout)] + r4;
    var r2 := [Rule(["permission", "unauthorized"], Permission)] + r3;
    var r1 := [Rule(["not found", "404"], NotFound)] + r2;
    assert Rules() == [Rule(["network", "fetch"], Network)] + r1;
    assert r4[1..] == [];
    ContainsAnyPair(m, "network", "fetch");
    ContainsAnyPair(m, "not found", "404");
    ContainsAnyPair(m, "permission", "unauthorized");
    ContainsAnyPair(m, "validation", "invalid");
    assert ContainsAny(m, ["timeout"]) <==> Contains(m, "timeout") by {
      assert ["timeout"][1..] == [];
    }
    assert r3[1..] == r4 && r2[1..] == r3 && r1[1..] == r2;
    assert FirstMatch(r4, m) == if Contains(m, "validation") || Contains(m, "invalid") then Invalid else Generic;
    assert FirstMatch(r3, m) == if Contains(m, "timeout") then Timeout else FirstMatch(r4, m);
    assert FirstMatch(r2, m) == if Contains(m, "permission") || Contains(m, "unauthorized") then Permission else FirstMatch(r3, m);
    assert FirstMatch(r1, m) == if Contains(m, "not found") || Contains(m, "404") then NotFound else FirstMatch(r2, m);
  }

  lemma ContainsAnyPair(m: string, a: string, b: string)
    ensures ContainsAny(m, [a, b]) <==> Contains(m, a) || Contains(m, b)
  {
    assert [a, b][1..] == [b];
    assert [b][1..] == [];
    assert !ContainsAny(m, []);
    assert ContainsAny(m, [b]) <==> Contains(m, b);
    assert ContainsAny(m, [a, b]) <==> Contains(m, a) || ContainsAny(m, [b]);
  }

  /** A message gets a category exactly when that rule matches and no
      earlier one does; the default exactly when no rule matches. */
  lemma {:induction false} FirstMatchIsEarliest(rules: seq<Rule>, m: string, k: nat)
    requires k < |rules|
    requires forall i, j :: 0 <= i < j < |rules| ==> rules[i].category != rules[j].category
    requires forall i :: 0 <= i < |rules| ==> rules[i].category != Generic
    ensures FirstMatch(rules, m) == rules[k].category <==>
      Matches(rules[k], m) && forall i :: 0 <= i < k ==> !Matches(rules[i], m)
  {
    if k > 0 && !Matches(rules[0], m) {
      FirstMatchIsEarliest(rules[1..], m, k - 1);
      assert forall i :: 0 < i < k ==> rules[1..][i - 1] == rules[i];
    }
  }

  lemma {:induction false} FirstMatchDefault(rules: seq<Rule>, m: string)
    requires forall i :: 0 <= i < |rules| ==> rules[i].category != Generic
    ensures FirstMatch(rules, m) == Generic <==> forall i :: 0 <= i < |rules| ==> !Matches(rules[i], m)
  {
    if rules != [] {
      FirstMatchDefault(rules[1..], m);
      assert forall i :: 0 < i < |rules| ==> rules[1..][i - 1] == rules[i];
    }
  }

  /** Lower-casing twice is lower-casing once. */
  lemma ToLowerIdempotent(s: string)
    ensures ToLower(ToLower(s)) == ToLower(s)
  {
  }

  /** Upper-casing first does not change the lower-cased form. */
  lemma ToLowerOfUpper(s: string)
    ensures ToLower(ToUpper(s)) == ToLower(s)
  {
  }

  /** The classification ignores letter case: a plain error gets the same
      message as its lower-cased and its upper-cased variant. */
  lemma ClassificationIgnoresCase(m: string)
    ensures UserFriendlyMessage(PlainError(m)) == UserFriendlyMessage(PlainError(ToLower(m)))
    ensures UserFriendlyMessage(PlainError(m)) == UserFriendlyMessage(PlainError(ToUpper(m)))
  {
    ToLowerIdempotent(m);
    ToLowerOfUpper(m);
  }

  /** An `AppError` with a non-empty `userMessage` shows that text; without
      one it is classified like a plain error with the same message. */
  lemma AppErrorMessage(message: string, code: string, recoverable: Option<bool>, userMessage: Option<string>)
    ensures var e := NewAppError(message, code, recoverable, userMessage);
      UserFriendlyMessage(e) ==
        if userMessage.Some? && userMessage.value != "" then Custom(userMessage.value)
        else UserFriendlyMessage(PlainError(message))
  {
  }

  /** What one call of the wrapped function does: resolve or reject. */
  datatype Attempt<T> = Resolved(value: T) | Rejected(error: Failure)

  /** The options of `withRetry`; `None` is an omitted option. */
  datatype RetryOptions = RetryOptions(maxRetries: Option<int>, delay: Option<real>, hasOnRetry: bool)

  /** `maxRetries = 3` */
  function MaxRetriesOf(o: RetryOptions): int
  {
    if o.maxRetries.Some? then o.maxRetries.value else 3
  }

  /** `delay = 1000` */
  function DelayOf(o: RetryOptions): real
  {
    if o.delay.Some? then o.delay.value else 1000.0
  }

  /** How many calls the loop `attempt = 0 .. maxRetries` allows. */
  function AllowedCalls(m: int): nat
  {
    if m < 0 then 0 else m + 1
  }

  /** The index of the first call among the first `n` that resolves, or `n`. */
  function FirstSuccess<T>(fn: nat -> Attempt<T>, n: nat): (s: nat)
    ensures s <= n
    ensures forall i :: 0 <= i < s ==> fn(i).Rejected?
    ensures s < n ==> fn(s).Resolved?
  {
    if n == 0 then 0
    else
      var s := FirstSuccess(fn, n - 1);
      if s < n - 1 then s else if fn(n - 1).Resolved? then n - 1 else n
  }

  /** The first success is determined by the outcomes. */
  lemma {:induction false} FirstSuccessUnique<T>(fn: nat -> Attempt<T>, n: nat, s: nat)
    requires s <= n
    requires forall i :: 0 <= i < s ==> fn(i).Rejected?
    requires s < n ==> fn(s).Resolved?
    ensures FirstSuccess(fn, n) == s
  {
    if n > 0 && s < n {
      if s < n - 1 {
        FirstSuccessUnique(fn, n - 1, s);
      } else {
        FirstSuccessUnique(fn, n - 1, n - 1);
      }
    } else if n > 0 {
      FirstSuccessUnique(fn, n - 1, n - 1);
    }
  }

  /** `delay * Math.pow(2, attempt)`: the wait after failed attempt `attempt`. */
  function Wait(delay: real, attempt: nat): real
  {
    delay * Pow2(attempt) as real
  }

  /** The waits after the first `k` failed attempts. */
  function Backoff(delay: real, k: nat): seq<real>
  {
    if k == 0 then [] else Backoff(delay, k - 1) + [Wait(delay, k - 1)]
  }

  /** The `onRetry(attempt + 1, error)` calls after the first `k` failed attempts. */
  function Notices<T>(fn: nat -> Attempt<T>, k: nat): seq<(nat, Failure)>
    requires forall i :: 0 <= i < k ==> fn(i).Rejected?
  {
    if k == 0 then [] else Notices(fn, k - 1) + [(k, fn(k - 1).error)]
  }

  /** How many of the first `failed` failures are followed by a retry. */
  function Retries(m: int, failed: nat): nat
  {
    if failed < m then failed else if m < 0 then 0 else m
  }

  lemma BackoffStep(delay: real, k: nat)
    ensures Backoff(delay, k + 1) == Backoff(delay, k) + [Wait(delay, k)]
  {
  }

  lemma NoticesStep<T>(fn: nat -> Attempt<T>, k: nat)
    requires forall i :: 0 <= i < k + 1 ==> fn(i).Rejected?
    ensures Notices(fn, k + 1) == Notices(fn, k) + [(k + 1, fn(k).error)]
  {
    var n := k + 1;
    assert Notices(fn, n) == Notices(fn, n - 1) + [(n, fn(n - 1).error)];
  }

  /** The i-th wait is `delay * 2^i`. */
  lemma {:induction false} BackoffIsExponential(delay: real, k: nat)
    ensures |Backoff(delay, k)| == k
    ensures forall i :: 0 <= i < k ==> Backoff(delay, k)[i] == delay * Pow2(i) as real
  {
    if k > 0 {
      BackoffIsExponential(delay, k - 1);
    }
  }

  /** The observer sees the attempt numbers 1, 2, ..., k with the error of
      the attempt before each retry. */
  lemma {:induction false} NoticesNumbered<T>(fn: nat -> Attempt<T>, k: nat)
    requires forall i :: 0 <= i < k ==> fn(i).Rejected?
    ensures |Notices(fn, k)| == k
    ensures forall i :: 0 <= i < k ==> Notices(fn, k)[i] == (i + 1, fn(i).error)
  {
    if k > 0 {
      NoticesNumbered(fn, k - 1);
    }
  }

  /** With the default options, a call that always fails is made four times
      and waits 1, 2 and 4 seconds in between. */
  lemma DefaultSchedule()
    ensures AllowedCalls(MaxRetriesOf(RetryOptions(None, None, false))) == 4
    ensures Backoff(DelayOf(RetryOptions(None, None, false)), Retries(3, 4)) == [1000.0, 2000.0, 4000.0]
  {
    assert Backoff(1000.0, 1) == [1000.0];
    assert Backoff(1000.0, 2) == [1000.0, 2000.0];
  }

  /** `withRetry(fn, options)`: the call `fn()` numbered `i` (from 0) has
      outcome `fn(i)`. The returned value, or the error thrown (`None` being
      `undefined` when the loop never ran), the number of calls, the
      `onRetry` notifications and the waits are all determined by the first
      successful call. */
  method WithRetry<T>(fn: nat -> Attempt<T>, options: RetryOptions)
    returns (outcome: Result<T, Option<Failure>>, calls: nat, notified: seq<(nat, Failure)>, waits: seq<real>)
    ensures var m := MaxRetriesOf(options);
      var n := AllowedCalls(m);
      var s := FirstSuccess(fn, n);
      && calls == (if s < n then s + 1 else n)
      && outcome == (if s < n then Ok(fn(s).value) else if n == 0 then Err(None) else Err(Some(fn(n - 1).error)))
      && waits == Backoff(DelayOf(options), Retries(m, s))
      && notified == (if options.hasOnRetry then Notices(fn, Retries(m, s)) else [])
  {
    var m := MaxRetriesOf(options);
    var delay := DelayOf(options);
    var lastError: Option<Failure> := None;
    calls := 0;
    notified := [];
    waits := [];
    var attempt: nat := 0;
    while attempt <= m
      invariant attempt <= AllowedCalls(m)
      invariant calls == attempt
      invariant forall i :: 0 <= i < attempt ==> fn(i).Rejected?
      invariant lastError == if attempt == 0 then None else Some(fn(attempt - 1).error)
      invariant waits == Backoff(delay, Retries(m, attempt))
      invariant notified == if options.hasOnRetry then Notices(fn, Retries(m, attempt)) else []
    {
      calls := calls + 1;
      var result := fn(attempt);
      if result.Resolved? {
        FirstSuccessUnique(fn, AllowedCalls(m), attempt);
        outcome := Ok(result.value);
        return;
      }
      lastError := Some(result.error);
      if attempt < m {
        if options.hasOnRetry {
          notified := notified + [(attempt + 1, result.error)];
          NoticesStep(fn, attempt);
        }
        waits := waits + [Wait(delay, attempt)];
        BackoffStep(delay, attempt);
        assert Retries(m, attempt + 1) == attempt + 1 && Retries(m, attempt) == attempt;
      } else {
        assert Retries(m, attempt + 1) == Retries(m, attempt);
      }
      attempt := attempt + 1;
    }
    FirstSuccessUnique(fn, AllowedCalls(m), AllowedCalls(m));
    outcome := Err(lastError);
  }

  /** A function that fails `k` times and then succeeds, with
      `k <= maxRetries`, is called `k + 1` times and notifies `onRetry`
      exactly `k` times, with attempt numbers 1..k. */
  lemma SucceedsAfterFailures<T>(fn: nat -> Attempt<T>, options: RetryOptions, k: nat)
    requires k <= MaxRetriesOf(options)
    requires forall i :: 0 <= i < k ==> fn(i).Rejected?
    requires fn(k).Resolved?
    ensures var n := AllowedCalls(MaxRetriesOf(options));
      FirstSuccess(fn, n) == k && Retries(MaxRetriesOf(options), k) == k
    ensures |Notices(fn, k)| == k && forall i :: 0 <= i < k ==> Notices(fn, k)[i].0 == i + 1
  {
    FirstSuccessUnique(fn, AllowedCalls(MaxRetriesOf(options)), k);
    NoticesNumbered(fn, k);
  }

  /** A function that always fails is called `maxRetries + 1` times, retried
      `maxRetries` times, and the last error is thrown. */
  lemma AlwaysFails<T>(fn: nat -> Attempt<T>, options: RetryOptions)
    requires MaxRetriesOf(options) >= 0
    requires forall i :: 0 <= i <= MaxRetriesOf(options) ==> fn(i).Rejected?
    ensures var m := MaxRetriesOf(options);
      FirstSuccess(fn, AllowedCalls(m)) == m + 1 && Retries(m, m + 1) == m
  {
    FirstSuccessUnique(fn, AllowedCalls(MaxRetriesOf(options)), AllowedCalls(MaxRetriesOf(options)));
  }
}
