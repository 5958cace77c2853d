/**
The password policy with its validator and generator. Every draw of the random source is a nondeterministic choice,
so what is proved holds for all of them.
*/
module PasswordPolicy {
  import opened Wrappers

  /** A hash verifies exactly the secret it was made from. */
  datatype Hash = Hash(secret: string, salt: nat)

  predicate Verify(secret: string, h: Hash) {
    h.secret == secret
  }

  datatype CharClass = Lowercase | Uppercase | Digit | Special {
    predicate Has(c: char) {
      match this
      case Lowercase => 'a' <= c <= 'z'
      case Uppercase => 'A' <= c <= 'Z'
      case Digit => '0' <= c <= '9'
      case Special =>
        c in {'!', '@', '#', '$', '%', '^', '&', '*', '(', ')', '_', '+', '-',
              '=', '[', ']', '{', '}', '|', ';', ':', ',', '.', '<', '>', '?'}
    }
  }

  const LOWERCASE: string := "abcdefghijklmnopqrstuvwxyz"
  const UPPERCASE: string := "ABCDEFGHIJKLMNOPQRSTUVWXYZ"
  const DIGITS: string := "0123456789"
  const SPECIAL: string := "!@#$%^&*()_+-=[]{}|;:,.<>?"

  datatype Policy = Policy(
    minLength: int,
    requireUppercase: bool,
    requireLowercase: bool,
    requireDigits: bool,
    requireSpecial: bool,
    historySize: int)
  {
    predicate Requires(k: CharClass) {
      match k
      case Lowercase => requireLowercase
      case Uppercase => requireUppercase
      case Digit => requireDigits
      case Special => requireSpecial
    }

    predicate RequiresSomething() {
      requireUppercase || requireLowercase || requireDigits || requireSpecial
    }

    function RequiredClasses(): nat {
      (if requireUppercase then 1 else 0) + (if requireLowercase then 1 else 0)
      + (if requireDigits then 1 else 0) + (if requireSpecial then 1 else 0)
    }

    predicate Allows(c: char) {
      exists k: CharClass :: Requires(k) && k.Has(c)
    }
  }

  /** `re.search` of a character class. */
  predicate Contains(password: string, k: CharClass) {
    exists i :: 0 <= i < |password| && k.Has(password[i])
  }

  predicate HasOneOf(password: string, alphabet: string) {
    exists i :: 0 <= i < |password| && password[i] in alphabet
  }

  /** The classes are the four alphabets. */
  lemma LowercaseIff(c: char)
    ensures Lowercase.Has(c) <==> c in LOWERCASE
  {
    if 'a' <= c <= 'z' {
      assert LOWERCASE[c as int - 'a' as int] == c;
    }
  }

  lemma UppercaseIff(c: char)
    ensures Uppercase.Has(c) <==> c in UPPERCASE
  {
    if 'A' <= c <= 'Z' {
      assert UPPERCASE[c as int - 'A' as int] == c;
    }
  }

  lemma DigitIff(c: char)
    ensures Digit.Has(c) <==> c in DIGITS
  {
    if '0' <= c <= '9' {
      assert DIGITS[c as int - '0' as int] == c;
    }
  }

  lemma SpecialIff(c: char)
    ensures Special.Has(c) <==> c in SPECIAL
  {
  }

  /** The character is of an alphabet that the policy requires. */
  predicate IsFromPool(policy: Policy, c: char) {
    || (policy.requireLowercase && c in LOWERCASE)
    || (policy.requireUppercase && c in UPPERCASE)
    || (policy.requireDigits && c in DIGITS)
    || (policy.requireSpecial && c in SPECIAL)
  }

  lemma AllowedIff(policy: Policy, c: char)
    ensures policy.Allows(c) <==> IsFromPool(policy, c)
  {
    LowercaseIff(c);
    UppercaseIff(c);
    DigitIff(c);
    SpecialIff(c);
    assert policy.Allows(c) <==>
           || (policy.Requires(Lowercase) && Lowercase.Has(c)) || (policy.Requires(Uppercase) && Uppercase.Has(c))
           || (policy.Requires(Digit) && Digit.Has(c)) || (policy.Requires(Special) && Special.Has(c));
  }

  lemma ContainsIff(password: string)
    ensures Contains(password, Lowercase) <==> HasOneOf(password, LOWERCASE)
    ensures Contains(password, Uppercase) <==> HasOneOf(password, UPPERCASE)
    ensures Contains(password, Digit) <==> HasOneOf(password, DIGITS)
    ensures Contains(password, Special) <==> HasOneOf(password, SPECIAL)
  {
    forall i | 0 <= i < |password|
      ensures Lowercase.Has(password[i]) <==> password[i] in LOWERCASE
      ensures Uppercase.Has(password[i]) <==> password[i] in UPPERCASE
      ensures Digit.Has(password[i]) <==> password[i] in DIGITS
      ensures Special.Has(password[i]) <==> password[i] in SPECIAL
    {
      LowercaseIff(password[i]);
      UppercaseIff(password[i]);
      DigitIff(password[i]);
      SpecialIff(password[i]);
    }
  }

  datatype PolicyError = TooShort | Missing(missing: CharClass) | IndexError

  /** Every required class occurs. */
  predicate Covers(policy: Policy, chars: string) {
    forall k: CharClass :: policy.Requires(k) ==> Contains(chars, k)
  }

  predicate AllAllowed(policy: Policy, chars: string) {
    forall i :: 0 <= i < |chars| ==> policy.Allows(chars[i])
  }

  predicate Complies(policy: Policy, password: string) {
    policy.minLength <= |password| && Covers(policy, password)
  }

  class PasswordValidator {
    const policy: Policy

    constructor (policy: Policy)
      ensures this.policy == policy
    {
      this.policy := policy;
    }

    method Search(password: string, k: CharClass) returns (found: bool)
      ensures found <==> Contains(password, k)
    {
      for i := 0 to |password|
        invariant forall j :: 0 <= j < i ==> !k.Has(password[j])
      {
        if k.Has(password[i]) {
          return true;
        }
      }
      return false;
    }

    /** No error exactly for a compliant password; otherwise the first requirement that is violated. */
    method Validate(password: string) returns (error: Option<PolicyError>)
      ensures error.None? <==> Complies(policy, password)
      ensures
        var long := policy.minLength <= |password|;
        var upper := !policy.requireUppercase || HasOneOf(password, UPPERCASE);
        var lower := !policy.requireLowercase || HasOneOf(password, LOWERCASE);
        var digit := !policy.requireDigits || HasOneOf(password, DIGITS);
        var special := !policy.requireSpecial || HasOneOf(password, SPECIAL);
        && (error == Some(TooShort) <==> !long)
        && (error == Some(Missing(Uppercase)) <==> long && !upper)
        && (error == Some(Missing(Lowercase)) <==> long && upper && !lower)
        && (error == Some(Missing(Digit)) <==> long && upper && lower && !digit)
        && (error == Some(Missing(Special)) <==> long && upper && lower && digit && !special)
        && (error == None <==> long && upper && lower && digit && special)
    {
      ContainsIff(password);
      if |password| < policy.minLength {
        return Some(TooShort);
      }
      if policy.requireUppercase {
        var found := Search(password, Uppercase);
        if !found {
          return Some(Missing(Uppercase));
        }
      }
      if policy.requireLowercase {
        var found := Search(password, Lowercase);
        if !found {
          return Some(Missing(Lowercase));
        }
      }
      if policy.requireDigits {
        var found := Search(password, Digit);
        if !found {
          return Some(Missing(Digit));
        }
      }
      if policy.requireSpecial {
        var found := Search(password, Special);
        if !found {
          return Some(Missing(Special));
        }
      }
      return None;
    }
  }

  lemma CoversGrows(policy: Policy, chars: string, more: string)
    requires Covers(policy, chars)
    ensures Covers(policy, chars + more)
  {
    forall k: CharClass | policy.Requires(k) ensures Contains(chars + more, k) {
      ContainsGrows(chars, more, k);
    }
  }

  lemma ContainsGrows(chars: string, more: string, k: CharClass)
    requires Contains(chars, k)
    ensures Contains(chars + more, k)
  {
    var i :| 0 <= i < |chars| && k.Has(chars[i]);
    assert (chars + more)[i] == chars[i];
  }

  lemma NotEmpty(k: CharClass)
    ensures exists c :: k.Has(c)
  {
    match k
    case Lowercase => assert k.Has('a');
    case Uppercase => assert k.Has('A');
    case Digit => assert k.Has('0');
    case Special => assert k.Has('!');
  }

  lemma ContainsShuffled(chars: string, shuffled: string, k: CharClass)
    requires multiset(chars) == multiset(shuffled) && Contains(chars, k)
    ensures Contains(shuffled, k)
  {
    var i :| 0 <= i < |chars| && k.Has(chars[i]);
    assert chars[i] in multiset(shuffled);
    var j :| 0 <= j < |shuffled| && shuffled[j] == chars[i];
    assert k.Has(shuffled[j]);
  }

  /** A permutation covers the same classes with the same characters. */
  lemma ShuffledStaysGood(policy: Policy, chars: string, shuffled: string)
    requires multiset(chars) == multiset(shuffled)
    ensures |shuffled| == |chars|
    ensures Covers(policy, chars) ==> Covers(policy, shuffled)
    ensures AllAllowed(policy, chars) ==> AllAllowed(policy, shuffled)
  {
    assert |multiset(chars)| == |multiset(shuffled)|;
    if Covers(policy, chars) {
      forall k: CharClass | policy.Requires(k) ensures Contains(shuffled, k) {
        ContainsShuffled(chars, shuffled, k);
      }
    }
    if AllAllowed(policy, chars) {
      forall i | 0 <= i < |shuffled| ensures policy.Allows(shuffled[i]) {
        assert shuffled[i] in multiset(chars);
        var j :| 0 <= j < |chars| && chars[j] == shuffled[i];
        assert policy.Allows(chars[j]);
      }
    }
  }

  class PasswordGenerator {
    const policy: Policy

    constructor (policy: Policy)
      ensures this.policy == policy
    {
      this.policy := policy;
    }

    /** Any character of any of the pooled alphabets may come back. */
    static method Choice(pool: seq<CharClass>) returns (c: char)
      requires pool != []
      ensures exists k :: k in pool && k.Has(c)
    {
      var i :| 0 <= i < |pool|;
      var k := pool[i];
      NotEmpty(k);
      c :| k.Has(c);
    }

    /** The classes seen so far, with one character of each required one. */
    predicate Collected(seen: set<CharClass>, chars: string, pool: seq<CharClass>) {
      && |chars| == |pool|
      && (forall k :: k in seen && policy.Requires(k) ==> Contains(chars, k) && k in pool)
      && (forall k :: k in pool ==> policy.Requires(k))
      && AllAllowed(policy, chars)
    }

    method Collect(k: CharClass, ghost seen: set<CharClass>, chars: string, pool: seq<CharClass>)
      returns (moreChars: string, morePool: seq<CharClass>)
      requires Collected(seen, chars, pool)
      ensures Collected(seen + {k}, moreChars, morePool)
      ensures |moreChars| == |chars| + if policy.Requires(k) then 1 else 0
    {
      moreChars, morePool := chars, pool;
      if policy.Requires(k) {
        morePool := pool + [k];
        var c := Choice([k]);
        moreChars := chars + [c];
        assert moreChars[|chars|] == c && k.Has(c) && policy.Allows(c);
        forall other | other in seen && policy.Requires(other) ensures Contains(moreChars, other) {
          ContainsGrows(chars, [c], other);
        }
      }
    }

    /** One character of every required class, and the pool of all their characters. */
    method RequiredChars() returns (chars: string, pool: seq<CharClass>)
      ensures |chars| == |pool| == policy.RequiredClasses() && Covers(policy, chars) && AllAllowed(policy, chars)
      ensures forall k :: k in pool ==> policy.Requires(k)
    {
      chars, pool := Collect(Lowercase, {}, [], []);
      chars, pool := Collect(Uppercase, {Lowercase}, chars, pool);
      chars, pool := Collect(Digit, {Lowercase, Uppercase}, chars, pool);
      chars, pool := Collect(Special, {Lowercase, Uppercase, Digit}, chars, pool);
      forall k: CharClass | policy.Requires(k) ensures Contains(chars, k) {
        assert k in {Lowercase, Uppercase, Digit} + {Special};
      }
    }

    /** Fisher and Yates, from the last position down. */
    static method Shuffle(a: array<char>)
      modifies a
      ensures multiset(a[..]) == multiset(old(a[..]))
    {
      var i := a.Length;
      while i > 1
        invariant i <= a.Length
        invariant multiset(a[..]) == multiset(old(a[..]))
        decreases i
      {
        i := i - 1;
        var j :| 0 <= j <= i;
        a[i], a[j] := a[j], a[i];
      }
    }

    static method Shuffled(chars: string) returns (shuffled: string)
      ensures multiset(shuffled) == multiset(chars)
    {
      var a := new char[|chars|](i requires 0 <= i < |chars| => chars[i]);
      assert a[..] == chars;
      Shuffle(a);
      shuffled := a[..];
    }

    /** Draws from the pool until `n` characters are there; None when there is nothing to draw from. */
    method Extend(required: string, pool: seq<CharClass>, n: int) returns (chars: Option<string>)
      requires Covers(policy, required) && AllAllowed(policy, required)
      requires forall k :: k in pool ==> policy.Requires(k)
      ensures chars.None? <==> pool == [] && |required| < n
      ensures chars.Some? ==>
                |chars.value| == Max(n, |required|) && Covers(policy, chars.value) && AllAllowed(policy, chars.value)
    {
      var remaining := n - |required|;
      var drawn: string := [];
      while |drawn| < remaining
        invariant |drawn| <= Max(remaining, 0) && AllAllowed(policy, drawn)
        invariant drawn != [] ==> pool != []
        decreases remaining - |drawn|
      {
        if pool == [] {
          return None;
        }
        var c := Choice(pool);
        assert policy.Allows(c);
        drawn := drawn + [c];
      }
      CoversGrows(policy, required, drawn);
      chars := Some(required + drawn);
    }

    /**
    Whatever the draws and the shuffle: the password passes the validator of the same policy, is as long as asked
    for but not shorter than the policy's minimum or the number of required classes, and uses no other characters.
    A policy without a required class has no alphabet, and drawing from it raises.
    */
    method Generate(length: Option<int>) returns (result: Result<string, PolicyError>)
      ensures result.Err? <==> !policy.RequiresSomething() && EffectiveLength(length) > 0
      ensures result.Err? ==> result.error == IndexError
      ensures result.Ok? ==>
                && Complies(policy, result.value)
                && |result.value| == Max(EffectiveLength(length), policy.RequiredClasses())
                && AllAllowed(policy, result.value)
      ensures result.Ok? && length.None? && policy.minLength >= 0 ==> |result.value| == policy.minLength + 4
      ensures result.Ok? && length.Some? && length.value >= policy.minLength && length.value >= 4 ==>
                |result.value| == length.value
      ensures result.Ok? && length.Some? && length.value < policy.minLength && policy.minLength >= 4 ==>
                |result.value| == policy.minLength
      ensures result.Ok? ==> forall i :: 0 <= i < |result.value| ==> IsFromPool(policy, result.value[i])
    {
      var n := if length.Some? then length.value else policy.minLength + 4;
      if n < policy.minLength {
        n := policy.minLength;
      }
      var required, pool := RequiredChars();
      var chars := Extend(required, pool, n);
      if chars.None? {
        return Err(IndexError);
      }
      var password := Shuffled(chars.value);
      ShuffledStaysGood(policy, chars.value, password);
      forall i | 0 <= i < |password| ensures IsFromPool(policy, password[i]) {
        AllowedIff(policy, password[i]);
      }
      result := Ok(password);
    }

    /** Without an argument four more than the minimum, and never less than the minimum. */
    function EffectiveLength(length: Option<int>): int {
      Max(if length.Some? then length.value else policy.minLength + 4, policy.minLength)
    }
  }

  function Max(a: int, b: int): int {
    if a < b then b else a
  }

  /** Generator and validator of one policy agree. */
  method GenerateAndValidate(policy: Policy, length: Option<int>) returns (valid: bool)
    requires policy.RequiresSomething()
    ensures valid
  {
    var generator := new PasswordGenerator(policy);
    var validator := new PasswordValidator(policy);
    var password := generator.Generate(length);
    var error := validator.Validate(password.value);
    valid := error.None?;
  }
}
