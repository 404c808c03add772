/** Small shared vocabulary: optional values, results of calls into sheet
    helpers that are not part of this model, the Telegram user id, and two
    facts about integer multiplication and division. */
module Base {

  /** Python's `None`-or-value. */
  datatype Option<+T> = None | Some(value: T)

  /** The outcome of a call into a sheet helper whose body is not modelled
      (get_event_types, get_user_roles, list_upcoming_events, ...): either
      the value it returned, or an exception it raised. */
  datatype Fetch<+T> = Fetched(value: T) | FetchFailed

  /** Telegram user ids are Python ints. */
  type UserId = int

  /** Multiplying by a non-negative number keeps the order. */
  lemma {:induction false} MulMono(a: int, b: int, n: int)
    requires a <= b && n >= 0
    ensures a * n <= b * n
    decreases b - a
  {
    if a < b {
      MulMono(a + 1, b, n);
      assert (a + 1) * n == a * n + n;
    }
  }

  /** Integer division is determined by the bracket its quotient lies in. */
  lemma DivUnique(x: int, n: int, q: int)
    requires n > 0 && q * n <= x < q * n + n
    ensures x / n == q && x % n == x - q * n
  {
    var d, r := x / n, x % n;
    assert x == d * n + r && 0 <= r < n;
    if d > q {
      MulMono(q + 1, d, n);
    } else if d < q {
      MulMono(d + 1, q, n);
    }
  }
}
