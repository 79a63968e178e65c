/** The e-mail check of the login form: the trimmed address must match
    `^[^\s@]+@[^\s@]+\.[^\s@]+$` before the form is sent. The pattern is
    stated as the split it describes, and shown to accept exactly the
    addresses with one '@', no white space, a non-empty local part and a
    domain with a '.' neither first nor last. */
module Login {
  import opened Common
  import opened Text

  /** `[^\s@]*` over the whole string: no white space and no '@'. */
  predicate Plain(s: string)
  {
    forall i :: 0 <= i < |s| ==> !IsSpace(s[i]) && s[i] != '@'
  }

  /** The regular expression: `s` is a non-empty plain run, '@' at `i`, a
      non-empty plain run, '.' at `j` and a non-empty plain run. A '.' is
      plain too, so any '.' of the domain with a character on each side
      can serve as `j`. */
  ghost predicate MatchesPattern(s: string)
  {
    exists i, j :: 0 < i && i + 1 < j && j + 1 < |s| && s[i] == '@' && s[j] == '.' &&
      Plain(s[..i]) && Plain(s[i + 1..j]) && Plain(s[j + 1..])
  }

  /** The domain has a '.' that is neither its first nor its last character. */
  predicate DotInside(domain: string)
  {
    exists k :: 0 < k < |domain| - 1 && domain[k] == '.'
  }

  /** The address rule: exactly one '@', no white space, a non-empty part
      before the '@', and a '.' inside the part after it. */
  predicate ValidEmail(s: string)
  {
    multiset(s)['@'] == 1 && NoSpace(s) &&
    var local := Before(s, '@');
    local != [] && |local| < |s| && DotInside(s[|local| + 1..])
  }

  /** Two different positions holding '@' count twice. */
  lemma AtsCounted(s: string, i: nat, m: nat)
    requires i < m < |s|
    ensures multiset(s)['@'] >= (if s[i] == '@' then 1 else 0) + (if s[m] == '@' then 1 else 0)
  {
    assert s == s[..i] + [s[i]] + s[i + 1..m] + [s[m]] + s[m + 1..];
  }

  /** With one '@' in all, no position but `i` holds one. */
  lemma OnlyAt(s: string, i: nat)
    requires i < |s| && s[i] == '@' && multiset(s)['@'] == 1
    ensures forall m :: 0 <= m < |s| && m != i ==> s[m] != '@'
  {
    forall m | 0 <= m < |s| && m != i
      ensures s[m] != '@'
    {
      if m < i {
        AtsCounted(s, m, i);
      } else {
        AtsCounted(s, i, m);
      }
    }
  }

  /** A plain run holds no '@'. */
  lemma PlainHasNoAt(s: string)
    requires Plain(s)
    ensures multiset(s)['@'] == 0
  {
    assert '@' !in s by {
      forall k | 0 <= k < |s| ensures s[k] != '@' {
      }
    }
  }

  /** The rule accepts what the pattern matches and nothing else. */
  lemma ValidEmailIffPattern(s: string)
    ensures ValidEmail(s) <==> MatchesPattern(s)
  {
    if ValidEmail(s) {
      ValidMatches(s);
    }
    if MatchesPattern(s) {
      var i, j :| 0 < i && i + 1 < j && j + 1 < |s| && s[i] == '@' && s[j] == '.' &&
        Plain(s[..i]) && Plain(s[i + 1..j]) && Plain(s[j + 1..]);
      PatternAt(s, i, j);
    }
  }

  lemma ValidMatches(s: string)
    requires ValidEmail(s)
    ensures MatchesPattern(s)
  {
    var local := Before(s, '@');
    var i := |local|;
    var domain := s[i + 1..];
    var k :| 0 < k < |domain| - 1 && domain[k] == '.';
    var j := i + 1 + k;
    assert s[j] == '.';
    OnlyAt(s, i);
    assert Plain(s[..i]) by {
      assert s[..i] == local;
    }
    var b, c := s[i + 1..j], s[j + 1..];
    forall m | 0 <= m < |b| ensures !IsSpace(b[m]) && b[m] != '@' {
      assert b[m] == s[i + 1 + m];
    }
    forall m | 0 <= m < |c| ensures !IsSpace(c[m]) && c[m] != '@' {
      assert c[m] == s[j + 1 + m];
    }
  }

  /** A match at `i` and `j` is the address the three runs make. */
  lemma PatternAt(s: string, i: nat, j: nat)
    requires 0 < i && i + 1 < j && j + 1 < |s| && s[i] == '@' && s[j] == '.'
    requires Plain(s[..i]) && Plain(s[i + 1..j]) && Plain(s[j + 1..])
    ensures ValidEmail(s)
  {
    var a, b, c := s[..i], s[i + 1..j], s[j + 1..];
    assert s[i + 1..] == b + ['.'] + c;
    assert s == a + ['@'] + s[i + 1..];
    PatternValid(a, b, c);
  }

  /** The string a match is made of. */
  lemma PatternValid(a: string, b: string, c: string)
    requires a != [] && b != [] && c != [] && Plain(a) && Plain(b) && Plain(c)
    ensures ValidEmail(a + ['@'] + (b + ['.'] + c))
  {
    var domain := b + ['.'] + c;
    var s := a + ['@'] + domain;
    PlainHasNoAt(a);
    PlainHasNoAt(b);
    PlainHasNoAt(c);
    assert multiset(s)['@'] == 1;
    PlainNoSpace(a);
    PlainNoSpace(b);
    PlainNoSpace(c);
    NoSpaceConcat(b + ['.'], c);
    NoSpaceConcat(a + ['@'], domain);
    assert '@' !in a by {
      PlainHasNoAt(a);
    }
    BeforeFirst(a, '@', domain);
    assert s[|a| + 1..] == domain;
    assert domain[|b|] == '.';
  }

  lemma PlainNoSpace(s: string)
    requires Plain(s)
    ensures NoSpace(s)
  {
  }

  /** No white space on either side, none in the whole. */
  lemma NoSpaceConcat(x: string, y: string)
    requires NoSpace(x) && NoSpace(y)
    ensures NoSpace(x + y)
  {
    forall m | 0 <= m < |x + y| ensures !IsSpace((x + y)[m]) {
      if m >= |x| {
        assert (x + y)[m] == y[m - |x|];
      }
    }
  }

  /** What submitting the form leads to. */
  datatype LoginStep =
    | AskForFields                          // "Please enter email and password"
    | AskForValidEmail                      // "Please enter a valid email"
    | SendLogin(email: string, password: string)  // the request to `/auth/login`

  /** The submit handler up to the request: the e-mail is trimmed, the
      password is not. */
  function SubmitLogin(emailField: string, password: string): (r: LoginStep)
    ensures r == AskForFields <==> AllSpace(emailField) || password == []
    ensures r.SendLogin? <==> MatchesPattern(Trim(emailField)) && password != []
    ensures r.SendLogin? ==> r.email == Trim(emailField) && r.password == password
  {
    var email := Trim(emailField);
    ValidEmailIffPattern(email);
    if email == [] || password == [] then AskForFields
    else if !ValidEmail(email) then AskForValidEmail
    else SendLogin(email, password)
  }

  /** A sent address has one '@' and a non-empty part before it, so the
      backend's user name, the text before the first '@', is not empty and
      holds no '@'. */
  lemma SentAddressNamesUser(emailField: string, password: string)
    requires SubmitLogin(emailField, password).SendLogin?
    ensures var email := SubmitLogin(emailField, password).email;
      multiset(email)['@'] == 1 && Before(email, '@') != [] && '@' !in Before(email, '@')
  {
    ValidEmailIffPattern(Trim(emailField));
  }
}
