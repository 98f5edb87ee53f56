/**
 * The in-memory user store and token ledger: usernames with passwords, usernames with
 * token balances. Every lookup and every write first trims the username, as Kotlin's
 * `String.trim()` does.
 */
module Auth {

  /** Tokens awarded to every newly registered user. */
  const InitialTokens: int := 100

  /**
   * Kotlin's `Char.isWhitespace()` on the JVM: the Java whitespace characters
   * (tab, line feed, vertical tab, form feed, carriage return, U+001C..U+001F)
   * together with the Unicode space, line and paragraph separators.
   */
  predicate IsWhitespace(c: char) {
    var n := c as int;
    (9 <= n <= 13) || (0x1C <= n <= 0x20) || n == 0xA0 || n == 0x1680 ||
    (0x2000 <= n <= 0x200A) || n == 0x2028 || n == 0x2029 || n == 0x202F ||
    n == 0x205F || n == 0x3000
  }

  /** Kotlin's `isBlank()`: empty or whitespace only. */
  predicate IsBlank(s: string) {
    forall i :: 0 <= i < |s| ==> IsWhitespace(s[i])
  }

  /** Drops the leading whitespace. */
  function TrimStart(s: string): string
    decreases |s|
  {
    if s != [] && IsWhitespace(s[0]) then TrimStart(s[1..]) else s
  }

  /** Drops the trailing whitespace. */
  function TrimEnd(s: string): string
    decreases |s|
  {
    if s != [] && IsWhitespace(s[|s| - 1]) then TrimEnd(s[..|s| - 1]) else s
  }

  /** `TrimStart` removes a prefix made only of whitespace and stops at a non-whitespace character. */
  lemma {:induction false} TrimStartSpec(s: string)
    ensures var r := TrimStart(s);
      && |r| <= |s| && r == s[|s| - |r|..]
      && (r == [] || !IsWhitespace(r[0]))
      && (forall i :: 0 <= i < |s| - |r| ==> IsWhitespace(s[i]))
    decreases |s|
  {
    if s != [] && IsWhitespace(s[0]) {
      TrimStartSpec(s[1..]);
      var r := TrimStart(s);
      forall i | 0 <= i < |s| - |r| ensures IsWhitespace(s[i]) {
        if i > 0 {
          assert s[i] == s[1..][i - 1];
        }
      }
    }
  }

  /** `TrimEnd` removes a suffix made only of whitespace and stops at a non-whitespace character. */
  lemma {:induction false} TrimEndSpec(s: string)
    ensures var r := TrimEnd(s);
      && |r| <= |s| && r == s[..|r|]
      && (r == [] || !IsWhitespace(r[|r| - 1]))
      && (forall i :: |r| <= i < |s| ==> IsWhitespace(s[i]))
    decreases |s|
  {
    if s != [] && IsWhitespace(s[|s| - 1]) {
      TrimEndSpec(s[..|s| - 1]);
      var r := TrimEnd(s);
      forall i | |r| <= i < |s| ensures IsWhitespace(s[i]) {
        if i < |s| - 1 {
          assert s[i] == s[..|s| - 1][i];
        }
      }
    }
  }

  /** Kotlin's `trim()`: drops leading and trailing whitespace. */
  function Trim(s: string): string {
    TrimEnd(TrimStart(s))
  }

  /**
   * What `trim()` gives: the infix of `s` that neither starts nor ends with whitespace,
   * obtained by removing only whitespace.
   */
  lemma TrimSpec(s: string)
    ensures var r := Trim(s);
      r == [] || (!IsWhitespace(r[0]) && !IsWhitespace(r[|r| - 1]))
    ensures var r, i := Trim(s), |s| - |TrimStart(s)|;
      && 0 <= i && i + |r| <= |s| && r == s[i..i + |r|]
      && (forall j :: 0 <= j < i ==> IsWhitespace(s[j]))
      && (forall j :: i + |r| <= j < |s| ==> IsWhitespace(s[j]))
  {
    var t := TrimStart(s);
    var r := TrimEnd(t);
    TrimStartSpec(s);
    TrimEndSpec(t);
    var k := |s| - |t|;
    assert t == s[k..];
    assert r == t[..|r|];
    assert r == s[k..k + |r|];
    if r != [] {
      assert r[0] == t[0];
    }
    forall j | k + |r| <= j < |s| ensures IsWhitespace(s[j]) {
      assert s[j] == t[j - k];
    }
  }

  /** The trimmed name is empty exactly when the name is blank. */
  lemma TrimEmptyIffBlank(s: string)
    ensures Trim(s) == [] <==> IsBlank(s)
  {
    var t := TrimStart(s);
    TrimStartSpec(s);
    TrimEndSpec(t);
    var k := |s| - |t|;
    if Trim(s) == [] {
      // the whitespace-only remainder of TrimStart must be empty, so all of `s` was stripped
      assert t == [];
    }
  }

  predicate IsTrimmed(s: string) {
    Trim(s) == s
  }

  /** Trimming twice is trimming once, so every stored username is already trimmed. */
  lemma TrimIdempotent(s: string)
    ensures IsTrimmed(Trim(s))
  {
    var r := Trim(s);
    TrimSpec(s);
    assert TrimStart(r) == r;
    assert TrimEnd(r) == r;
  }

  /** A credit (positive) or debit (negative) of `delta` tokens to one user. */
  datatype Credit = Credit(user: string, delta: int)

  /** `tokens[u.trim()] ?: 0`. */
  function Balance(tokens: map<string, int>, u: string): int {
    var k := Trim(u);
    if k in tokens then tokens[k] else 0
  }

  /** The ledger after `addTokens(u, amount)`. */
  function Credited(tokens: map<string, int>, u: string, amount: int): (t: map<string, int>)
    ensures Balance(t, u) == Balance(tokens, u) + amount
    ensures forall v {:trigger Balance(t, v)} :: Trim(v) != Trim(u) ==> Balance(t, v) == Balance(tokens, v)
  {
    tokens[Trim(u) := Balance(tokens, u) + amount]
  }

  /** The ledger after applying the credits `cs` one after another, first to last. */
  function ApplyCredits(tokens: map<string, int>, cs: seq<Credit>): map<string, int>
    decreases |cs|
  {
    if cs == [] then tokens
    else
      var last := cs[|cs| - 1];
      Credited(ApplyCredits(tokens, cs[..|cs| - 1]), last.user, last.delta)
  }

  /** The sum of the deltas in `cs` that go to the account of `u`. */
  function DeltaFor(cs: seq<Credit>, u: string): int
    decreases |cs|
  {
    if cs == [] then 0
    else
      var last := cs[|cs| - 1];
      DeltaFor(cs[..|cs| - 1], u) + (if Trim(last.user) == Trim(u) then last.delta else 0)
  }

  /** The sum of all deltas in `cs`. */
  function SumDeltas(cs: seq<Credit>): int
    decreases |cs|
  {
    if cs == [] then 0 else SumDeltas(cs[..|cs| - 1]) + cs[|cs| - 1].delta
  }

  ghost predicate NonNegative(tokens: map<string, int>) {
    forall u :: u in tokens ==> tokens[u] >= 0
  }

  /** Applying one credit after `cs` is one more `addTokens`. */
  lemma ApplyCreditsSnoc(tokens: map<string, int>, cs: seq<Credit>, c: Credit)
    ensures ApplyCredits(tokens, cs + [c]) == Credited(ApplyCredits(tokens, cs), c.user, c.delta)
  {
    assert (cs + [c])[..|cs|] == cs;
  }

  /** Applying one more credit of `cs` is one more `addTokens`. */
  lemma ApplyCreditsStep(tokens: map<string, int>, cs: seq<Credit>, i: nat)
    requires i < |cs|
    ensures ApplyCredits(tokens, cs[..i + 1]) == Credited(ApplyCredits(tokens, cs[..i]), cs[i].user, cs[i].delta)
  {
    assert cs[..i + 1][..i] == cs[..i];
  }

  /** One `addTokens` that does not take its account below zero keeps every balance non-negative. */
  lemma CreditedKeepsNonNegative(tokens: map<string, int>, u: string, amount: int)
    requires NonNegative(tokens)
    requires Balance(tokens, u) + amount >= 0
    ensures NonNegative(Credited(tokens, u, amount))
  {
    var t := Credited(tokens, u, amount);
    forall k | k in t ensures t[k] >= 0 {
      if k != Trim(u) {
        assert t[k] == tokens[k];
      }
    }
  }

  /** The deltas add up over concatenation. */
  lemma {:induction false} SumDeltasAppend(a: seq<Credit>, b: seq<Credit>)
    ensures SumDeltas(a + b) == SumDeltas(a) + SumDeltas(b)
    decreases |b|
  {
    if b == [] {
      assert a + b == a;
    } else {
      SumDeltasAppend(a, b[..|b| - 1]);
      assert (a + b)[..|a + b| - 1] == a + b[..|b| - 1];
    }
  }

  /** Each account ends with its old balance plus exactly the deltas addressed to it. */
  lemma {:induction false} ApplyCreditsBalance(tokens: map<string, int>, cs: seq<Credit>, u: string)
    ensures Balance(ApplyCredits(tokens, cs), u) == Balance(tokens, u) + DeltaFor(cs, u)
    decreases |cs|
  {
    if cs != [] {
      ApplyCreditsBalance(tokens, cs[..|cs| - 1], u);
    }
  }

  /** Applying credits only adds keys (the trimmed names credited). */
  lemma {:induction false} ApplyCreditsKeys(tokens: map<string, int>, cs: seq<Credit>)
    ensures tokens.Keys <= ApplyCredits(tokens, cs).Keys
    ensures forall k :: k in ApplyCredits(tokens, cs) ==> k in tokens || exists i :: 0 <= i < |cs| && k == Trim(cs[i].user)
    decreases |cs|
  {
    if cs != [] {
      ApplyCreditsKeys(tokens, cs[..|cs| - 1]);
      forall k | k in ApplyCredits(tokens, cs)
        ensures k in tokens || exists i :: 0 <= i < |cs| && k == Trim(cs[i].user)
      {
        if k != Trim(cs[|cs| - 1].user) {
          assert k in ApplyCredits(tokens, cs[..|cs| - 1]);
          if k !in tokens {
            var i :| 0 <= i < |cs[..|cs| - 1]| && k == Trim(cs[..|cs| - 1][i].user);
            assert cs[i] == cs[..|cs| - 1][i];
          }
        }
      }
    }
  }

  /** Credits that never take anything away leave every balance at least where it was. */
  lemma {:induction false} NonNegativeCreditsOnlyRaise(tokens: map<string, int>, cs: seq<Credit>, u: string)
    requires forall i :: 0 <= i < |cs| ==> cs[i].delta >= 0
    ensures Balance(ApplyCredits(tokens, cs), u) >= Balance(tokens, u)
    decreases |cs|
  {
    if cs != [] {
      NonNegativeCreditsOnlyRaise(tokens, cs[..|cs| - 1], u);
    }
  }

  /** Credits that never take anything away keep a ledger free of negative balances. */
  lemma {:induction false} NonNegativeCreditsKeepNonNegative(tokens: map<string, int>, cs: seq<Credit>)
    requires NonNegative(tokens)
    requires forall i :: 0 <= i < |cs| ==> cs[i].delta >= 0
    ensures NonNegative(ApplyCredits(tokens, cs))
    decreases |cs|
  {
    if cs != [] {
      var prefix := cs[..|cs| - 1];
      NonNegativeCreditsKeepNonNegative(tokens, prefix);
    }
  }

  /** No delta in `cs` goes to the account of `u`. */
  lemma {:induction false} DeltaForUntouched(cs: seq<Credit>, u: string)
    requires forall i :: 0 <= i < |cs| ==> Trim(cs[i].user) != Trim(u)
    ensures DeltaFor(cs, u) == 0
    decreases |cs|
  {
    if cs != [] {
      DeltaForUntouched(cs[..|cs| - 1], u);
    }
  }

  /**
   * Debits addressed to pairwise different accounts, each covered by that account's balance,
   * keep a ledger free of negative balances.
   */
  lemma {:induction false} CoveredDebitsKeepNonNegative(tokens: map<string, int>, cs: seq<Credit>)
    requires NonNegative(tokens)
    requires forall i, j :: 0 <= i < j < |cs| ==> Trim(cs[i].user) != Trim(cs[j].user)
    requires forall i :: 0 <= i < |cs| ==> cs[i].delta <= 0 && Balance(tokens, cs[i].user) + cs[i].delta >= 0
    ensures NonNegative(ApplyCredits(tokens, cs))
    decreases |cs|
  {
    if cs != [] {
      var prefix := cs[..|cs| - 1];
      var last := cs[|cs| - 1];
      CoveredDebitsKeepNonNegative(tokens, prefix);
      var before := ApplyCredits(tokens, prefix);
      ApplyCreditsBalance(tokens, prefix, last.user);
      DeltaForUntouched(prefix, last.user);
      var after := ApplyCredits(tokens, cs);
      forall k | k in after ensures after[k] >= 0 {
        if k == Trim(last.user) {
          assert after[k] == Balance(before, last.user) + last.delta;
        } else {
          assert after[k] == before[k];
        }
      }
    }
  }

  /** The sum of all balances in the ledger. */
  ghost function Total(m: map<string, int>): int
    decreases |m.Keys|
  {
    if m.Keys == {} then 0
    else
      var k :| k in m.Keys;
      assert (m - {k}).Keys == m.Keys - {k};
      m[k] + Total(m - {k})
  }

  /** Any one account can be taken out of the total first. */
  lemma {:induction false} TotalRemove(m: map<string, int>, k: string)
    requires k in m
    ensures Total(m) == m[k] + Total(m - {k})
    decreases |m.Keys|
  {
    var k' :| k' in m.Keys && Total(m) == m[k'] + Total(m - {k'});
    if k' != k {
      var withoutK', withoutK := m - {k'}, m - {k};
      assert withoutK'.Keys == m.Keys - {k'};
      assert withoutK.Keys == m.Keys - {k};
      TotalRemove(withoutK', k);
      TotalRemove(withoutK, k');
      assert withoutK' - {k} == withoutK - {k'};
      calc {
        Total(m);
        m[k'] + Total(withoutK');
        m[k'] + withoutK'[k] + Total(withoutK' - {k});
        m[k] + (withoutK[k'] + Total(withoutK - {k'}));
        m[k] + Total(withoutK);
      }
    }
  }

  /** Crediting one account changes the total by exactly the amount credited. */
  lemma CreditedTotal(tokens: map<string, int>, u: string, amount: int)
    ensures Total(Credited(tokens, u, amount)) == Total(tokens) + amount
  {
    var k := Trim(u);
    var t := Credited(tokens, u, amount);
    TotalRemove(t, k);
    assert t - {k} == tokens - {k};
    if k in tokens {
      TotalRemove(tokens, k);
    } else {
      assert tokens - {k} == tokens;
    }
  }

  /** The total changes by exactly the sum of the deltas applied: no token is created or lost. */
  lemma {:induction false} ApplyCreditsTotal(tokens: map<string, int>, cs: seq<Credit>)
    ensures Total(ApplyCredits(tokens, cs)) == Total(tokens) + SumDeltas(cs)
    decreases |cs|
  {
    if cs != [] {
      var last := cs[|cs| - 1];
      ApplyCreditsTotal(tokens, cs[..|cs| - 1]);
      CreditedTotal(ApplyCredits(tokens, cs[..|cs| - 1]), last.user, last.delta);
    }
  }

  /** Applying `a` and then `b` is applying `a + b`. */
  lemma {:induction false} ApplyCreditsAppend(tokens: map<string, int>, a: seq<Credit>, b: seq<Credit>)
    ensures ApplyCredits(ApplyCredits(tokens, a), b) == ApplyCredits(tokens, a + b)
    decreases |b|
  {
    if b == [] {
      assert a + b == a;
    } else {
      var init := b[..|b| - 1];
      var last := b[|b| - 1];
      ApplyCreditsAppend(tokens, a, init);
      assert (a + b)[..|a + b| - 1] == a + init;
      assert (a + b)[|a + b| - 1] == last;
      assert ApplyCredits(tokens, a + b) == Credited(ApplyCredits(tokens, a + init), last.user, last.delta);
    }
  }

  /**
   * `InMemoryAuthRepository`: the user store (`users`, username to password) and the token
   * ledger (`tokens`, username to balance). Keys are always trimmed usernames.
   */
  class InMemoryAuthRepository {
    var users: map<string, string>
    var tokens: map<string, int>

    /** Every registered user has a balance, and every stored name is trimmed. */
    ghost predicate Valid()
      reads this
    {
      users.Keys <= tokens.Keys && (forall u :: u in tokens ==> IsTrimmed(u))
    }

    constructor ()
      ensures Valid() && users == map[] && tokens == map[]
    {
      users := map[];
      tokens := map[];
    }

    /**
     * `register`: refuses a blank (trimmed) username or a blank password and a name already
     * registered; otherwise stores the password and sets the balance to exactly 100 tokens.
     */
    method Register(username: string, password: string) returns (ok: bool)
      requires Valid()
      modifies this
      ensures Valid()
      ensures ok <==> !IsBlank(Trim(username)) && !IsBlank(password) && Trim(username) !in old(users)
      ensures ok ==> users == old(users)[Trim(username) := password]
      ensures ok ==> tokens == old(tokens)[Trim(username) := InitialTokens]
      ensures ok ==> Login(username, password) && GetTokens(username) == InitialTokens
      ensures !ok ==> users == old(users) && tokens == old(tokens)
    {
      var u := Trim(username);
      if IsBlank(u) || IsBlank(password) {
        return false;
      }
      if u in users {
        return false;
      }
      TrimIdempotent(username);
      users := users[u := password];
      tokens := tokens[u := InitialTokens];
      ok := true;
    }

    /** `login`: true exactly when the trimmed name is registered with this very password. */
    function Login(username: string, password: string): (ok: bool)
      reads this
      ensures ok <==> Trim(username) in users && users[Trim(username)] == password
    {
      var u := Trim(username);
      u in users && users[u] == password
    }

    /** `getTokens`: the stored balance of the trimmed name, 0 for an unknown user. */
    function GetTokens(username: string): (r: int)
      reads this
      ensures Trim(username) !in tokens ==> r == 0
      ensures Trim(username) in tokens ==> r == tokens[Trim(username)]
    {
      Balance(tokens, username)
    }

    /**
     * `addTokens`: the trimmed name's balance (0 when absent) goes up by `amount` (down when
     * negative); every other account and the user store stay as they were.
     */
    method AddTokens(username: string, amount: int)
      requires Valid()
      modifies this
      ensures Valid()
      ensures tokens == Credited(old(tokens), username, amount)
      ensures users == old(users)
      ensures GetTokens(username) == old(GetTokens(username)) + amount
      ensures forall v {:trigger GetTokens(v)} :: Trim(v) != Trim(username) ==> GetTokens(v) == old(GetTokens(v))
    {
      var u := Trim(username);
      TrimIdempotent(username);
      var current := if u in tokens then tokens[u] else 0;
      assert current == Balance(tokens, username);
      tokens := tokens[u := current + amount];
      assert tokens == Credited(old(tokens), username, amount);
      forall v | Trim(v) != u ensures GetTokens(v) == old(GetTokens(v)) {
        assert GetTokens(v) == Balance(tokens, v);
        assert old(GetTokens(v)) == Balance(old(tokens), v);
      }
    }
  }
}
