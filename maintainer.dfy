/** `DhMakeRuby#maintainer`: the uploader's name and address, taken from
    `DEBFULLNAME`, `DEBEMAIL` and `EMAIL` the way `dch` from devscripts does. */
module Maintainer {
  import opened Text

  const FULLNAME_KEY := "DEBFULLNAME"
  const EMAIL_KEY := "DEBEMAIL"

  /** The three environment variables; `None` is an unset variable. */
  datatype MaintEnv = MaintEnv(debFullName: Option<string>, debEmail: Option<string>, email: Option<string>)

  /** Ruby's `a || b` on possibly-nil strings (an empty string is true). */
  function Or(a: Option<string>, b: Option<string>): Option<string> {
    if a.Some? then a else b
  }

  /** `s =~ /^(.*)\s+<(.*)>$/` can match with the `<` at index `j`: a
      whitespace character before it and a `>` closing the string. */
  predicate EmailAt(s: string, j: int) {
    && 1 <= j && j + 2 <= |s|
    && s[j] == '<' && IsSpace(s[j - 1]) && s[|s| - 1] == '>'
    && '\n' !in s
  }

  /** The largest index below `k` where the pattern can place its `<`. */
  function LastEmailBelow(s: string, k: nat): (r: Option<nat>)
    requires k <= |s|
    ensures r.Some? ==> r.value < k && EmailAt(s, r.value)
    ensures r.Some? ==> forall j :: r.value < j < k ==> !EmailAt(s, j)
    ensures r.None? ==> forall j :: 0 <= j < k ==> !EmailAt(s, j)
  {
    if k == 0 then None
    else if EmailAt(s, k - 1) then Some(k - 1)
    else LastEmailBelow(s, k - 1)
  }

  /** `$1` and `$2` after matching `EMAIL_REGEXP`. The greedy first group
      takes all it can, so the `<` is the last one that can serve, and the
      whitespace run before it gives up all but one character to `$1`. */
  function EmailMatch(s: string): (r: Option<(string, string)>)
    ensures r.None? <==> forall j :: 0 <= j < |s| ==> !EmailAt(s, j)
    ensures r.Some? ==>
      && |s| == |r.value.0| + |r.value.1| + 3
      && s == r.value.0 + [s[|r.value.0|]] + "<" + r.value.1 + ">"
      && IsSpace(s[|r.value.0|])
  {
    match LastEmailBelow(s, |s|)
    case None => None
    case Some(j) =>
      assert s == s[..j - 1] + [s[j - 1]] + "<" + s[j + 1..|s| - 1] + ">";
      Some((s[..j - 1], s[j + 1..|s| - 1]))
  }

  /** `Name <addr>` (any whitespace character in place of the space) gives
      back `Name` and `addr` when the address holds no `<`. */
  lemma EmailRoundTrip(name: string, c: char, addr: string)
    requires IsSpace(c) && c != '\n' && '\n' !in name && '\n' !in addr && '<' !in addr
    ensures EmailMatch(name + [c] + "<" + addr + ">") == Some((name, addr))
  {
    var s := name + [c] + "<" + addr + ">";
    var j := |name| + 1;
    assert s[..j - 1] == name && s[j - 1] == c && s[j] == '<';
    assert s[j + 1..|s| - 1] == addr;
    assert '\n' !in s by {
      assert forall k :: 0 <= k < |s| ==> s[k] != '\n' by {
        forall k | 0 <= k < |s| ensures s[k] != '\n' {
          if k < |name| { assert s[k] == name[k]; }
          else if j < k < |s| - 1 { assert s[k] == addr[k - j - 1]; }
        }
      }
    }
    assert EmailAt(s, j);
    forall k | j < k < |s| ensures !EmailAt(s, k) {
      if k < |s| - 1 { assert s[k] == addr[k - j - 1]; }
    }
    LastEmailBelowIs(s, |s|, j);
  }

  lemma {:induction false} LastEmailBelowIs(s: string, k: nat, j: nat)
    requires j < k <= |s| && EmailAt(s, j)
    requires forall i :: j < i < k ==> !EmailAt(s, i)
    ensures LastEmailBelow(s, k) == Some(j)
    decreases k
  {
    if k - 1 != j {
      LastEmailBelowIs(s, k - 1, j);
    }
  }

  /** The uploader as `maintainer` computes it, stated case by case: the
      second test reads the original environment, so `EMAIL` overrides
      whatever the first step took from `DEBEMAIL`. */
  function MaintainerAsWritten(env: MaintEnv): map<string, Option<string>> {
    var fromDebEmail := if env.debEmail.Some? then EmailMatch(env.debEmail.value) else None;
    var fromEmail :=
      if (env.debEmail.None? || env.debFullName.None?) && env.email.Some? then EmailMatch(env.email.value) else None;
    map[FULLNAME_KEY :=
          if env.debFullName.Some? then env.debFullName
          else if fromEmail.Some? then Some(fromEmail.value.0)
          else if fromDebEmail.Some? then Some(fromDebEmail.value.0)
          else None,
        EMAIL_KEY :=
          if fromEmail.Some? then Some(fromEmail.value.1)
          else if fromDebEmail.Some? then Some(fromDebEmail.value.1)
          else Or(env.debEmail, env.email)]
  }

  /** `maintainer`, filling the hash step by step. */
  method Maintainer(env: MaintEnv) returns (debenv: map<string, Option<string>>)
    ensures debenv.Keys == {FULLNAME_KEY, EMAIL_KEY}
    ensures env.debFullName.Some? ==> debenv[FULLNAME_KEY] == env.debFullName
    ensures debenv == MaintainerAsWritten(env)
  {
    debenv := map[];
    debenv := debenv[FULLNAME_KEY := env.debFullName];
    debenv := debenv[EMAIL_KEY := Or(env.debEmail, env.email)];
    if env.debEmail.Some? {
      var m := EmailMatch(env.debEmail.value);
      if m.Some? {
        if env.debFullName.None? {
          debenv := debenv[FULLNAME_KEY := Some(m.value.0)];
        }
        debenv := debenv[EMAIL_KEY := Some(m.value.1)];
      }
    }
    if env.debEmail.None? || env.debFullName.None? {
      if env.email.Some? {
        var m := EmailMatch(env.email.value);
        if m.Some? {
          if env.debFullName.None? {
            debenv := debenv[FULLNAME_KEY := Some(m.value.0)];
          }
          debenv := debenv[EMAIL_KEY := Some(m.value.1)];
        }
      }
    }
  }

  /** A set `DEBFULLNAME` is kept, and with `DEBEMAIL` unset the address
      defaults to `EMAIL` (its `<addr>` part when it has one). */
  lemma EmailIsTheDefault(env: MaintEnv)
    requires env.debEmail.None? && env.email.Some?
    ensures var m := EmailMatch(env.email.value);
      MaintainerAsWritten(env)[EMAIL_KEY] == if m.Some? then Some(m.value.1) else env.email
  {
  }

  /** Both set, `DEBEMAIL` in `Name <addr>` form: the address is split off
      and the given full name kept. */
  lemma DebEmailSplitWithFullName(full: string, name: string, c: char, addr: string, email: Option<string>)
    requires IsSpace(c) && c != '\n' && '\n' !in name && '\n' !in addr && '<' !in addr
    ensures var r := MaintainerAsWritten(MaintEnv(Some(full), Some(name + [c] + "<" + addr + ">"), email));
      r[FULLNAME_KEY] == Some(full) && r[EMAIL_KEY] == Some(addr)
  {
    EmailRoundTrip(name, c, addr);
  }

  /** With only `DEBEMAIL` set, in `Name <addr>` form, both parts are used. */
  lemma DebEmailSplit(name: string, c: char, addr: string)
    requires IsSpace(c) && c != '\n' && '\n' !in name && '\n' !in addr && '<' !in addr
    ensures var r := MaintainerAsWritten(MaintEnv(None, Some(name + [c] + "<" + addr + ">"), None));
      r[FULLNAME_KEY] == Some(name) && r[EMAIL_KEY] == Some(addr)
  {
    EmailRoundTrip(name, c, addr);
  }

  /** As written, with `DEBFULLNAME` unset an `EMAIL` of the form
      `Name <addr>` replaces both halves of a `DEBEMAIL` of that form. */
  lemma EmailOverridesDebEmail()
    ensures var r := MaintainerAsWritten(MaintEnv(None, Some("A <a>"), Some("B <b>")));
      r[FULLNAME_KEY] == Some("B") && r[EMAIL_KEY] == Some("b")
  {
    EmailRoundTrip("A", ' ', "a");
    EmailRoundTrip("B", ' ', "b");
    assert "A" + [' '] + "<" + "a" + ">" == "A <a>";
    assert "B" + [' '] + "<" + "b" + ">" == "B <b>";
  }

  /** What `dch` computes: the `DEBEMAIL` step updates the variables the
      `EMAIL` step then tests, and the `EMAIL` step never touches a set
      `DEBEMAIL`. */
  function MaintainerDch(env: MaintEnv): map<string, Option<string>> {
    var fromDebEmail := if env.debEmail.Some? then EmailMatch(env.debEmail.value) else None;
    var fullName := if env.debFullName.Some? then env.debFullName
      else if fromDebEmail.Some? then Some(fromDebEmail.value.0) else None;
    var fromEmail := if env.email.Some? then EmailMatch(env.email.value) else None;
    var consultEmail := env.debEmail.None? || fullName.None?;
    map[FULLNAME_KEY :=
          if fullName.None? && consultEmail && fromEmail.Some? then Some(fromEmail.value.0) else fullName,
        EMAIL_KEY :=
          if env.debEmail.Some? then (if fromDebEmail.Some? then Some(fromDebEmail.value.1) else env.debEmail)
          else if fromEmail.Some? then Some(fromEmail.value.1)
          else env.email]
  }

  /** `maintainer` with the `dch` logic, step by step. */
  method MaintainerCorrected(env: MaintEnv) returns (debenv: map<string, Option<string>>)
    ensures debenv.Keys == {FULLNAME_KEY, EMAIL_KEY}
    ensures debenv == MaintainerDch(env)
  {
    var fullName := env.debFullName;
    var debEmail := env.debEmail;
    var email := env.email;
    if debEmail.Some? {
      var m := EmailMatch(debEmail.value);
      if m.Some? {
        if fullName.None? {
          fullName := Some(m.value.0);
        }
        debEmail := Some(m.value.1);
      }
    }
    if debEmail.None? || fullName.None? {
      if email.Some? {
        var m := EmailMatch(email.value);
        if m.Some? {
          if fullName.None? {
            fullName := Some(m.value.0);
          }
          email := Some(m.value.1);
        }
      }
    }
    debenv := map[FULLNAME_KEY := fullName, EMAIL_KEY := Or(debEmail, email)];
  }

  /** Under `dch`'s logic a `DEBEMAIL` of the form `Name <addr>` settles the
      uploader whatever `EMAIL` holds: its address, and its name unless
      `DEBFULLNAME` is set. */
  lemma DchDebEmailDecides(full: Option<string>, name: string, c: char, addr: string, email: Option<string>)
    requires IsSpace(c) && c != '\n' && '\n' !in name && '\n' !in addr && '<' !in addr
    ensures var r := MaintainerDch(MaintEnv(full, Some(name + [c] + "<" + addr + ">"), email));
      r[FULLNAME_KEY] == Or(full, Some(name)) && r[EMAIL_KEY] == Some(addr)
  {
    EmailRoundTrip(name, c, addr);
  }

  /** Under `dch`'s logic a set `DEBFULLNAME` and a set `DEBEMAIL` are never
      replaced by anything taken from `EMAIL`. */
  lemma DchKeepsSetVariables(env: MaintEnv)
    ensures env.debFullName.Some? ==> MaintainerDch(env)[FULLNAME_KEY] == env.debFullName
    ensures env.debEmail.Some? && EmailMatch(env.debEmail.value).None? ==>
      MaintainerDch(env)[EMAIL_KEY] == env.debEmail
    ensures env.debEmail.None? ==>
      MaintainerDch(env)[EMAIL_KEY] == MaintainerAsWritten(env)[EMAIL_KEY]
  {
  }
}
