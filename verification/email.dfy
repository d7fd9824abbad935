/**
 The e-mail check of the RSVP endpoint (app/api/rsvp/route.ts, line 24):
 the pattern `^[^\s@]+@[^\s@]+\.[^\s@]+$` as an explicit string predicate.

 `Matches` is the language of the pattern read off its shape: three
 non-empty runs of characters that are neither white space nor `@`,
 separated by an `@` and a `.`. `ValidEmail` is the check stated the way a
 reader would describe it: no white space, exactly one `@`, a non-empty
 local part and a domain with a `.` that is neither its first nor its last
 character. `MatchesIffValidEmail` proves the two agree on every string.
 */
module EmailPattern {

  /** `\s` of ECMAScript regular expressions: WhiteSpace and LineTerminator,
      the Unicode space separators (category Zs) included. */
  predicate IsSpace(c: char) {
    || c == '\t' || c == '\n' || c == '\U{000B}' || c == '\U{000C}' || c == '\r'
    || c == ' ' || c == '\U{00A0}' || c == '\U{1680}'
    || ('\U{2000}' <= c <= '\U{200A}')
    || c == '\U{2028}' || c == '\U{2029}' || c == '\U{202F}' || c == '\U{205F}'
    || c == '\U{3000}' || c == '\U{FEFF}'
  }

  /** One character of the class `[^\s@]`. */
  predicate Plain(c: char) {
    !IsSpace(c) && c != '@'
  }

  /** The sub-pattern `[^\s@]+`: a non-empty run of plain characters. */
  predicate PlainRun(t: string) {
    |t| > 0 && forall i :: 0 <= i < |t| ==> Plain(t[i])
  }

  /** `s` splits as local `@` host `.` tld, with the `@` at index `at` and
      the `.` at index `dot`, each of the three parts a plain run. */
  predicate SplitsAt(s: string, at: int, dot: int) {
    && 0 <= at < dot < |s|
    && s[at] == '@'
    && s[dot] == '.'
    && PlainRun(s[..at])
    && PlainRun(s[at + 1..dot])
    && PlainRun(s[dot + 1..])
  }

  /** The strings the anchored pattern accepts: some split exists (the regex
      engine's backtracking searches exactly these splits). */
  ghost predicate Matches(s: string) {
    exists at, dot :: SplitsAt(s, at, dot)
  }

  /** Number of occurrences of `c` in `s`. */
  function CountOf(s: string, c: char): (n: nat)
    ensures n <= |s|
    ensures n == 0 <==> c !in s
  {
    if s == [] then 0
    else (if s[0] == c then 1 else 0) + CountOf(s[1..], c)
  }

  /** Index of the first occurrence of `c` in `s`. */
  function IndexOf(s: string, c: char): (i: nat)
    requires c in s
    ensures i < |s| && s[i] == c
    ensures c !in s[..i]
  {
    if s[0] == c then 0
    else
      assert c in s[1..] by {
        var k :| 0 <= k < |s| && s[k] == c;
        assert s[1..][k - 1] == c;
      }
      var j := IndexOf(s[1..], c);
      assert s[..j + 1] == [s[0]] + s[1..][..j];
      1 + j
  }

  predicate NoSpace(s: string) {
    forall i :: 0 <= i < |s| ==> !IsSpace(s[i])
  }

  /** The domain has a `.` that is neither its first nor its last character. */
  predicate HasInnerDot(d: string) {
    exists k :: 0 < k < |d| - 1 && d[k] == '.'
  }

  /** The e-mail check as the endpoint applies it. */
  predicate ValidEmail(s: string) {
    && NoSpace(s)
    && CountOf(s, '@') == 1
    && var at := IndexOf(s, '@');
       at > 0 && HasInnerDot(s[at + 1..])
  }

  lemma {:induction false} CountOfAppend(a: string, b: string, c: char)
    ensures CountOf(a + b, c) == CountOf(a, c) + CountOf(b, c)
  {
    if a == [] {
      assert a + b == b;
    } else {
      assert (a + b)[1..] == a[1..] + b;
      CountOfAppend(a[1..], b, c);
    }
  }

  /** A string that matches has exactly the shape `ValidEmail` describes. */
  lemma MatchesImpliesValid(s: string)
    requires Matches(s)
    ensures ValidEmail(s)
  {
    var at, dot :| SplitsAt(s, at, dot);
    // No white space: each character lies in a plain run or is `@` or `.`.
    forall i | 0 <= i < |s|
      ensures !IsSpace(s[i])
    {
      if i < at {
        assert s[..at][i] == s[i];
      } else if at < i < dot {
        assert s[at + 1..dot][i - at - 1] == s[i];
      } else if dot < i {
        assert s[dot + 1..][i - dot - 1] == s[i];
      }
    }
    // Exactly one `@`: none in the two pieces around index `at`.
    var pre, post := s[..at], s[at + 1..];
    assert s == pre + [s[at]] + post;
    assert '@' !in pre by {
      forall i | 0 <= i < |pre| ensures pre[i] != '@' {
        assert Plain(pre[i]);
      }
    }
    assert '@' !in post by {
      forall i | 0 <= i < |post| ensures post[i] != '@' {
        if at + 1 + i < dot {
          assert post[i] == s[at + 1..dot][i];
        } else if at + 1 + i > dot {
          assert post[i] == s[dot + 1..][at + i - dot];
        }
      }
    }
    CountOfAppend(pre + [s[at]], post, '@');
    CountOfAppend(pre, [s[at]], '@');
    assert CountOf(s, '@') == 1;
    // The first `@` is the one at `at`.
    assert IndexOf(s, '@') == at;
    // The domain's dot sits strictly inside it.
    var d := s[at + 1..];
    assert d[dot - at - 1] == '.';
    assert |s[dot + 1..]| > 0 && |s[at + 1..dot]| > 0;
    assert HasInnerDot(d);
  }

  /** A string `ValidEmail` accepts splits as the pattern demands. */
  lemma ValidImpliesMatches(s: string)
    requires ValidEmail(s)
    ensures Matches(s)
  {
    var at := IndexOf(s, '@');
    var d := s[at + 1..];
    var k :| 0 < k < |d| - 1 && d[k] == '.';
    var dot := at + 1 + k;
    var pre := s[..at];
    assert s == pre + [s[at]] + d;
    CountOfAppend(pre + [s[at]], d, '@');
    CountOfAppend(pre, [s[at]], '@');
    assert '@' !in d;
    assert PlainRun(pre) by {
      forall i | 0 <= i < |pre| ensures Plain(pre[i]) {
        assert pre[i] == s[i];
      }
    }
    var host, tld := s[at + 1..dot], s[dot + 1..];
    assert PlainRun(host) by {
      forall i | 0 <= i < |host| ensures Plain(host[i]) {
        assert host[i] == d[i] == s[at + 1 + i];
      }
    }
    assert PlainRun(tld) by {
      forall i | 0 <= i < |tld| ensures Plain(tld[i]) {
        assert tld[i] == d[k + 1 + i] == s[dot + 1 + i];
      }
    }
    assert SplitsAt(s, at, dot);
  }

  /** The explicit predicate accepts exactly the strings the pattern
      accepts. */
  lemma MatchesIffValidEmail(s: string)
    ensures Matches(s) <==> ValidEmail(s)
  {
    if Matches(s) {
      MatchesImpliesValid(s);
    }
    if ValidEmail(s) {
      ValidImpliesMatches(s);
    }
  }

  /** `foo@bar` is rejected: its domain has no dot. */
  lemma NoDotInDomainRejected()
    ensures !ValidEmail("foo@bar")
  {
  }

  /** `ann@host.de` is accepted. */
  lemma OrdinaryAddressAccepted()
    ensures ValidEmail("ann@host.de")
  {
    var s := "ann@host.de";
    assert SplitsAt(s, 3, 8) by {
      assert s[..3] == "ann" && s[4..8] == "host" && s[9..] == "de";
    }
    MatchesImpliesValid(s);
  }
}
