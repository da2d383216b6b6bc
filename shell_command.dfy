/**
 * A shell command line: its argument list, how it is shown as one string,
 * and the expansion of `$NAME` environment variables inside strings.
 *
 * The process environment is a parameter (`Env`); a variable that is not
 * set reads as the empty string, as `qgetenv` does.
 */
module ShellCommand {

  type Env = map<string, string>

  /** The command and its arguments; argument 0 is the command itself. */
  datatype ShellCommand = ShellCommand(arguments: seq<string>)

  /**
   * The constructor taking a command and an argument list: the list is kept
   * and only its first entry is replaced by the command; an empty list stays empty.
   */
  function WithCommand(command: string, arguments: seq<string>): (r: ShellCommand)
    ensures |r.arguments| == |arguments|
    ensures |arguments| > 0 ==> r.arguments[0] == command && r.arguments[1..] == arguments[1..]
  {
    if |arguments| == 0 then ShellCommand(arguments)
    else ShellCommand(arguments[0 := command])
  }

  /** The command: the first argument, or the empty string when there is none. */
  function Command(c: ShellCommand): (r: string)
    ensures c.arguments != [] ==> r == c.arguments[0]
    ensures c.arguments == [] ==> r == ""
  {
    if |c.arguments| > 0 then c.arguments[0] else ""
  }

  lemma CommandOfConstructed(command: string, arguments: seq<string>)
    ensures Command(WithCommand(command, arguments)) == (if arguments == [] then "" else command)
    ensures WithCommand(command, arguments).arguments == [] <==> arguments == []
  {
  }

  // ---------------------------------------------------------------------
  // Character classes of environment variable names
  // ---------------------------------------------------------------------

  /** A character that may start a variable name: '_' or an upper-case ASCII letter. */
  predicate IsValidLeadingEnvCharacter(ch: char): (b: bool)
    ensures b ==> ch as int < 128 && !('a' <= ch <= 'z') && !('0' <= ch <= '9')
  {
    ch == '_' || ('A' <= ch <= 'Z')
  }

  /** A character that may continue a variable name: a leading character or an ASCII digit. */
  predicate IsValidEnvCharacter(ch: char): (b: bool)
    ensures IsValidLeadingEnvCharacter(ch) ==> b
    ensures b ==> ch as int < 128 && ch != '$' && ch != '\\' && !('a' <= ch <= 'z')
  {
    IsValidLeadingEnvCharacter(ch) || ('0' <= ch <= '9')
  }

  lemma EnvCharacterClasses(ch: char)
    ensures IsValidLeadingEnvCharacter(ch) ==> IsValidEnvCharacter(ch)
    ensures IsValidEnvCharacter(ch) && !IsValidLeadingEnvCharacter(ch) <==> '0' <= ch <= '9'
    ensures 'a' <= ch <= 'z' ==> !IsValidEnvCharacter(ch)
    ensures ch == '$' || ch == '\\' || ch == ' ' ==> !IsValidEnvCharacter(ch)
  {
  }

  // ---------------------------------------------------------------------
  // Reference definition of the expansion
  // ---------------------------------------------------------------------

  /** The value of a variable; an unset variable reads as the empty string. */
  function Lookup(env: Env, name: string): string
  {
    if name in env then env[name] else ""
  }

  /** The maximal prefix of `s` made of valid variable-name characters. */
  function EnvName(s: string): (name: string)
    ensures |name| <= |s| && name == s[..|name|]
    ensures forall i :: 0 <= i < |name| ==> IsValidEnvCharacter(name[i])
    ensures |name| < |s| ==> !IsValidEnvCharacter(s[|name|])
  {
    if s == [] || !IsValidEnvCharacter(s[0]) then [] else [s[0]] + EnvName(s[1..])
  }

  /** Any prefix of valid name characters that cannot be extended is the name. */
  lemma {:induction false} EnvNameUnique(s: string, k: nat)
    requires k <= |s|
    requires forall i :: 0 <= i < k ==> IsValidEnvCharacter(s[i])
    requires k < |s| ==> !IsValidEnvCharacter(s[k])
    ensures EnvName(s) == s[..k]
  {
    if k > 0 {
      EnvNameUnique(s[1..], k - 1);
      assert s[..k] == [s[0]] + s[1..][..k - 1];
    }
  }

  /**
   * The expansion of the remaining text `s`, scanning left to right.
   * `escaped` says whether the character just before `s` in the text being
   * expanded is a backslash. The result is the expanded text and whether at
   * least one variable was replaced.
   *
   * A '$' stays as it is when it is the last character, when it follows a
   * backslash, or when the next character cannot start a name. Otherwise the
   * longest run of name characters after it is the name; a non-empty value
   * replaces '$' and the name, and scanning resumes after the inserted value
   * (with the value's last character as the preceding character), so inserted
   * text is never expanded again. An empty value leaves '$' and the name in place.
   */
  function ExpandRest(s: string, escaped: bool, env: Env): (string, bool)
    decreases |s|
  {
    if s == [] then ([], false)
    else if s[0] != '$' then
      var rest := ExpandRest(s[1..], s[0] == '\\', env);
      ([s[0]] + rest.0, rest.1)
    else if |s| == 1 then (s, false)
    else if escaped || !IsValidLeadingEnvCharacter(s[1]) then
      var rest := ExpandRest(s[1..], false, env);
      (['$'] + rest.0, rest.1)
    else
      var name := EnvName(s[1..]);
      var value := Lookup(env, name);
      if value != [] then
        var rest := ExpandRest(s[1 + |name|..], value[|value| - 1] == '\\', env);
        (value + rest.0, true)
      else
        var rest := ExpandRest(s[1 + |name|..], false, env);
        (['$'] + name + rest.0, rest.1)
  }

  /** The expansion of a whole text and whether anything was replaced. */
  function Expansion(text: string, env: Env): (string, bool)
  {
    ExpandRest(text, false, env)
  }

  /** Text without any '$' comes back unchanged, and nothing is reported as expanded. */
  lemma {:induction false} NoDollarUnchanged(s: string, escaped: bool, env: Env)
    requires forall i :: 0 <= i < |s| ==> s[i] != '$'
    ensures ExpandRest(s, escaped, env) == (s, false)
  {
    if s != [] {
      NoDollarUnchanged(s[1..], s[0] == '\\', env);
      assert s == [s[0]] + s[1..];
    }
  }

  /** When no variable was replaced, the text is unchanged. */
  lemma {:induction false} NotExpandedMeansUnchanged(s: string, escaped: bool, env: Env)
    ensures !ExpandRest(s, escaped, env).1 ==> ExpandRest(s, escaped, env).0 == s
    decreases |s|
  {
    if s == [] {
    } else if s[0] != '$' {
      NotExpandedMeansUnchanged(s[1..], s[0] == '\\', env);
    } else if |s| == 1 {
    } else if escaped || !IsValidLeadingEnvCharacter(s[1]) {
      NotExpandedMeansUnchanged(s[1..], false, env);
    } else {
      var name := EnvName(s[1..]);
      var value := Lookup(env, name);
      if value == [] {
        NotExpandedMeansUnchanged(s[1 + |name|..], false, env);
        assert s == ['$'] + name + s[1 + |name|..];
      }
    }
  }

  /** A '$' right after a backslash is kept, and scanning goes on after it. */
  lemma EscapedDollarKept(rest: string, escaped: bool, env: Env)
    ensures ExpandRest(['\\', '$'] + rest, escaped, env).0
            == ['\\', '$'] + ExpandRest(rest, false, env).0
  {
    var s := ['\\', '$'] + rest;
    assert s[1..] == ['$'] + rest;
    if rest != [] {
      assert s[1..][1..] == rest;
    }
  }

  /** A '$' followed by a character that cannot start a name is kept. */
  lemma InvalidLeadingDollarKept(c: char, rest: string, escaped: bool, env: Env)
    requires !IsValidLeadingEnvCharacter(c)
    ensures ExpandRest(['$', c] + rest, escaped, env).0 == ['$'] + ExpandRest([c] + rest, false, env).0
  {
    assert (['$', c] + rest)[1..] == [c] + rest;
  }

  /** A trailing '$' is kept. */
  lemma TrailingDollarKept(escaped: bool, env: Env)
    ensures ExpandRest(['$'], escaped, env) == (['$'], false)
  {
  }

  /**
   * A '$' followed by a maximal name whose value is non-empty is replaced by the
   * value verbatim: what follows is expanded on its own, with the value's last
   * character as the preceding character.
   */
  lemma {:induction false} VariableReplacedVerbatim(name: string, rest: string, escaped: bool, env: Env)
    requires |name| > 0 && IsValidLeadingEnvCharacter(name[0]) && !escaped
    requires forall i :: 0 <= i < |name| ==> IsValidEnvCharacter(name[i])
    requires rest != [] ==> !IsValidEnvCharacter(rest[0])
    requires Lookup(env, name) != []
    ensures var value := Lookup(env, name);
            ExpandRest(['$'] + name + rest, escaped, env)
            == (value + ExpandRest(rest, value[|value| - 1] == '\\', env).0, true)
  {
    var s := ['$'] + name + rest;
    assert s[1..] == name + rest;
    EnvNameUnique(name + rest, |name|);
    assert (name + rest)[..|name|] == name;
    assert s[1 + |name|..] == rest;
  }

  /** Inserted text is not scanned again: a value that itself names a variable stays literal. */
  lemma InsertedTextNotReexpanded()
    ensures Expansion("$A", map["A" := "$B", "B" := "x"]) == ("$B", true)
  {
    var env := map["A" := "$B", "B" := "x"];
    VariableReplacedVerbatim("A", "", false, env);
    assert ['$'] + "A" + "" == "$A";
    assert Lookup(env, "A") == "$B";
    assert ExpandRest("", false, env) == ("", false);
    assert ExpandRest("$A", false, env) == ("$B" + "", true);
    assert "$B" + "" == "$B";
  }

  // ---------------------------------------------------------------------
  // The in-place expansion loop
  // ---------------------------------------------------------------------

  /** Position of the first `c` in `s` at or after `from`, or -1 (QString::indexOf). */
  function IndexOf(s: string, c: char, from: nat): (r: int)
    requires from <= |s|
    ensures r == -1 <==> c !in s[from..]
    ensures r == -1 ==> forall i :: from <= i < |s| ==> s[i] != c
    ensures r != -1 ==> from <= r < |s| && s[r] == c && forall i :: from <= i < r ==> s[i] != c
    decreases |s| - from
  {
    if from == |s| then -1
    else if s[from] == c then from
    else
      var r := IndexOf(s, c, from + 1);
      assert s[from..] == [s[from]] + s[from + 1..];
      r
  }

  /** Whether the character before position `pos` of `t` is a backslash. */
  predicate EscapedAt(t: string, pos: nat)
    requires pos <= |t|
  {
    pos > 0 && t[pos - 1] == '\\'
  }

  /** The expansion still to be done on `t` from position `pos` on. */
  function RestAt(t: string, pos: nat, env: Env): (string, bool)
    requires pos <= |t|
  {
    ExpandRest(t[pos..], EscapedAt(t, pos), env)
  }

  /**
   * The loop's invariant: the expansion of the original text is the part of
   * `t` already scanned followed by the expansion of the rest of `t`.
   */
  predicate ScanInvariant(text: string, env: Env, t: string, pos: nat, expanded: bool)
  {
    pos <= |t|
    && Expansion(text, env).0 == t[..pos] + RestAt(t, pos, env).0
    && Expansion(text, env).1 == (expanded || RestAt(t, pos, env).1)
  }

  /** One step of the reference on a character other than '$'. */
  lemma CopyStep(t: string, pos: nat, env: Env)
    requires pos < |t| && t[pos] != '$'
    ensures RestAt(t, pos, env).0 == [t[pos]] + RestAt(t, pos + 1, env).0
    ensures RestAt(t, pos, env).1 == RestAt(t, pos + 1, env).1
  {
    assert t[pos..][1..] == t[pos + 1..];
  }

  /** Characters before the next '$' are copied unchanged. */
  lemma {:induction false} SkipToDollar(t: string, pos: nat, q: nat, env: Env)
    requires pos <= q <= |t| && forall i :: pos <= i < q ==> t[i] != '$'
    ensures RestAt(t, pos, env).0 == t[pos..q] + RestAt(t, q, env).0
    ensures RestAt(t, pos, env).1 == RestAt(t, q, env).1
    decreases q - pos
  {
    if pos < q {
      CopyStep(t, pos, env);
      SkipToDollar(t, pos + 1, q, env);
      assert t[pos..q] == [t[pos]] + t[pos + 1..q];
    }
  }

  /** A '$' that is escaped or not followed by a name start is copied. */
  lemma KeepDollar(t: string, q: nat, env: Env)
    requires q + 1 < |t| && t[q] == '$'
    requires EscapedAt(t, q) || !IsValidLeadingEnvCharacter(t[q + 1])
    ensures RestAt(t, q, env).0 == ['$'] + RestAt(t, q + 1, env).0
    ensures RestAt(t, q, env).1 == RestAt(t, q + 1, env).1
  {
    assert t[q..][1..] == t[q + 1..];
  }

  /** `t[q + 1..endPos]` is the name after the '$' at `q`. */
  lemma NameAt(t: string, q: nat, endPos: nat)
    requires q + 1 < |t| && q + 1 <= endPos <= |t|
    requires forall i :: q + 1 <= i < endPos ==> IsValidEnvCharacter(t[i])
    requires endPos < |t| ==> !IsValidEnvCharacter(t[endPos])
    ensures EnvName(t[q..][1..]) == t[q + 1..endPos]
    ensures t[q..][1 + (endPos - q - 1)..] == t[endPos..]
  {
    assert t[q..][1..] == t[q + 1..];
    EnvNameUnique(t[q + 1..], endPos - q - 1);
    assert t[q + 1..][..endPos - q - 1] == t[q + 1..endPos];
  }

  /** A name with a non-empty value: the value is emitted and scanning resumes after it. */
  lemma ReplaceName(t: string, q: nat, endPos: nat, env: Env)
    requires q + 1 < |t| && t[q] == '$' && !EscapedAt(t, q) && IsValidLeadingEnvCharacter(t[q + 1])
    requires q + 1 <= endPos <= |t|
    requires EnvName(t[q..][1..]) == t[q + 1..endPos]
    requires t[q..][1 + (endPos - q - 1)..] == t[endPos..]
    requires Lookup(env, t[q + 1..endPos]) != []
    ensures var value := Lookup(env, t[q + 1..endPos]);
            var t' := t[..q] + value + t[endPos..];
            RestAt(t, q, env).0 == value + RestAt(t', q + |value|, env).0
            && RestAt(t, q, env).1
            && t'[..q + |value|] == t[..q] + value
  {
    var value := Lookup(env, t[q + 1..endPos]);
    var t' := t[..q] + value + t[endPos..];
    assert t'[q + |value|..] == t[endPos..];
    assert t'[q + |value| - 1] == value[|value| - 1];
  }

  /** A name without a value: '$' and the name are copied. */
  lemma KeepName(t: string, q: nat, endPos: nat, env: Env)
    requires q + 1 < |t| && t[q] == '$' && !EscapedAt(t, q) && IsValidLeadingEnvCharacter(t[q + 1])
    requires q + 1 < endPos <= |t|
    requires EnvName(t[q..][1..]) == t[q + 1..endPos]
    requires t[q..][1 + (endPos - q - 1)..] == t[endPos..]
    requires Lookup(env, t[q + 1..endPos]) == []
    ensures RestAt(t, q, env).0 == t[q..endPos] + RestAt(t, endPos, env).0
    ensures RestAt(t, q, env).1 == RestAt(t, endPos, env).1
  {
    assert t[q..endPos] == ['$'] + t[q + 1..endPos];
    assert !EscapedAt(t, endPos);
  }

  /** No '$' left: the scanned text is the whole expansion. */
  lemma ScanFinish(text: string, env: Env, t: string, pos: nat, expanded: bool)
    requires ScanInvariant(text, env, t, pos, expanded)
    requires forall i :: pos <= i < |t| ==> t[i] != '$'
    ensures (t, expanded) == Expansion(text, env)
  {
    assert RestAt(t, pos, env) == (t[pos..], false) by {
      NoDollarUnchanged(t[pos..], EscapedAt(t, pos), env);
    }
    assert t[..pos] + t[pos..] == t;
  }

  /** The next '$' is the last character: it is kept and the scan ends. */
  lemma ScanTrailing(text: string, env: Env, t: string, pos: nat, q: nat, expanded: bool)
    requires ScanInvariant(text, env, t, pos, expanded)
    requires pos <= q == |t| - 1 && t[q] == '$'
    requires forall i :: pos <= i < q ==> t[i] != '$'
    ensures (t, expanded) == Expansion(text, env)
  {
    SkipToDollar(t, pos, q, env);
    assert t[q..] == ['$'];
    assert RestAt(t, q, env) == (['$'], false);
    assert t[..pos] + (t[pos..q] + ['$']) == t;
  }

  /** The next '$' is escaped or not followed by a name start: scanning resumes after it. */
  lemma ScanKeep(text: string, env: Env, t: string, pos: nat, q: nat, expanded: bool)
    requires ScanInvariant(text, env, t, pos, expanded)
    requires pos <= q && q + 1 < |t| && t[q] == '$'
    requires forall i :: pos <= i < q ==> t[i] != '$'
    requires EscapedAt(t, q) || !IsValidLeadingEnvCharacter(t[q + 1])
    ensures ScanInvariant(text, env, t, q + 1, expanded)
  {
    SkipToDollar(t, pos, q, env);
    KeepDollar(t, q, env);
    assert t[..q + 1] == t[..pos] + t[pos..q] + ['$'];
  }

  /** The name after the next '$' has a value: it is spliced in and scanning resumes after it. */
  lemma ScanReplace(text: string, env: Env, t: string, pos: nat, q: nat, endPos: nat, expanded: bool)
    requires ScanInvariant(text, env, t, pos, expanded)
    requires pos <= q && q + 1 < |t| && t[q] == '$'
    requires forall i :: pos <= i < q ==> t[i] != '$'
    requires !EscapedAt(t, q) && IsValidLeadingEnvCharacter(t[q + 1])
    requires q + 1 <= endPos <= |t|
    requires forall i :: q + 1 <= i < endPos ==> IsValidEnvCharacter(t[i])
    requires endPos < |t| ==> !IsValidEnvCharacter(t[endPos])
    requires Lookup(env, t[q + 1..endPos]) != []
    ensures var value := Lookup(env, t[q + 1..endPos]);
            ScanInvariant(text, env, t[..q] + value + t[endPos..], q + |value|, true)
  {
    var value := Lookup(env, t[q + 1..endPos]);
    var t' := t[..q] + value + t[endPos..];
    assert RestAt(t, pos, env).0 == (t[pos..q] + value) + RestAt(t', q + |value|, env).0
        && RestAt(t, pos, env).1 by {
      SkipToDollar(t, pos, q, env);
      NameAt(t, q, endPos);
      ReplaceName(t, q, endPos, env);
    }
    assert t'[..q + |value|] == t[..pos] + (t[pos..q] + value);
    InvariantStep(text, env, t, pos, t', q + |value|, t[pos..q] + value, expanded, true);
  }

  /** The name after the next '$' has no value: '$' and the name are kept. */
  lemma ScanUnset(text: string, env: Env, t: string, pos: nat, q: nat, endPos: nat, expanded: bool)
    requires ScanInvariant(text, env, t, pos, expanded)
    requires pos <= q && q + 1 < |t| && t[q] == '$'
    requires forall i :: pos <= i < q ==> t[i] != '$'
    requires !EscapedAt(t, q) && IsValidLeadingEnvCharacter(t[q + 1])
    requires q + 1 <= endPos <= |t|
    requires forall i :: q + 1 <= i < endPos ==> IsValidEnvCharacter(t[i])
    requires endPos < |t| ==> !IsValidEnvCharacter(t[endPos])
    requires Lookup(env, t[q + 1..endPos]) == []
    ensures ScanInvariant(text, env, t, endPos, expanded)
  {
    assert q + 1 < endPos by {
      assert IsValidEnvCharacter(t[q + 1]);
    }
    assert RestAt(t, pos, env).0 == (t[pos..q] + t[q..endPos]) + RestAt(t, endPos, env).0
        && RestAt(t, pos, env).1 == RestAt(t, endPos, env).1 by {
      SkipToDollar(t, pos, q, env);
      NameAt(t, q, endPos);
      KeepName(t, q, endPos, env);
    }
    assert t[..endPos] == t[..pos] + (t[pos..q] + t[q..endPos]);
    InvariantStep(text, env, t, pos, t, endPos, t[pos..q] + t[q..endPos], expanded, expanded);
  }

  /**
   * The invariant carries over to a new text and position when the part
   * scanned in between is appended to the scanned prefix.
   */
  lemma InvariantStep(text: string, env: Env, t: string, pos: nat, t': string, pos': nat,
                      scanned: string, expanded: bool, expanded': bool)
    requires ScanInvariant(text, env, t, pos, expanded)
    requires pos' <= |t'| && t'[..pos'] == t[..pos] + scanned
    requires RestAt(t, pos, env).0 == scanned + RestAt(t', pos', env).0
    requires (expanded || RestAt(t, pos, env).1) == (expanded' || RestAt(t', pos', env).1)
    ensures ScanInvariant(text, env, t', pos', expanded')
  {
  }

  /**
   * Expands every `$NAME` in `text` whose value in `env` is non-empty, and
   * returns the new text and whether any variable was expanded.
   */
  method ExpandEnv(text: string, env: Env) returns (result: string, expanded: bool)
    ensures (result, expanded) == Expansion(text, env)
  {
    result := text;
    var dollarPos: nat := 0;
    expanded := false;
    var done := false;
    while !done
      invariant done ==> (result, expanded) == Expansion(text, env)
      invariant !done ==> ScanInvariant(text, env, result, dollarPos, expanded)
      decreases !done, |result| - dollarPos
    {
      result, dollarPos, expanded, done := ScanStep(text, env, result, dollarPos, expanded);
    }
  }

  /** The end of the variable name that starts at `from`: the first position that is not a name character. */
  method NameEnd(t: string, from: nat) returns (endPos: nat)
    requires from <= |t|
    ensures from <= endPos <= |t|
    ensures forall i :: from <= i < endPos ==> IsValidEnvCharacter(t[i])
    ensures endPos < |t| ==> !IsValidEnvCharacter(t[endPos])
  {
    endPos := from;
    while endPos < |t| && IsValidEnvCharacter(t[endPos])
      invariant from <= endPos <= |t|
      invariant forall i :: from <= i < endPos ==> IsValidEnvCharacter(t[i])
    {
      endPos := endPos + 1;
    }
  }

  /**
   * One round of the expansion loop: finds the next '$' from `pos` on and
   * either finishes, skips it, or replaces the name after it.
   */
  method ScanStep(text: string, env: Env, t: string, pos: nat, expanded: bool)
    returns (t': string, pos': nat, expanded': bool, done: bool)
    requires ScanInvariant(text, env, t, pos, expanded)
    ensures done ==> (t', expanded') == Expansion(text, env)
    ensures !done ==> ScanInvariant(text, env, t', pos', expanded') && |t'| - pos' < |t| - pos
  {
    t', pos', expanded', done := t, pos, expanded, true;
    var q := IndexOf(t, '$', pos);
    if q == -1 {
      ScanFinish(text, env, t, pos, expanded);
    } else if q == |t| - 1 {
      ScanTrailing(text, env, t, pos, q, expanded);
    } else if (q > 0 && t[q - 1] == '\\') || !IsValidLeadingEnvCharacter(t[q + 1]) {
      ScanKeep(text, env, t, pos, q, expanded);
      pos', done := q + 1, false;
    } else {
      var endPos := NameEnd(t, q + 1);
      var value := Lookup(env, t[q + 1..endPos]);
      if value != [] {
        ScanReplace(text, env, t, pos, q, endPos, expanded);
        t', pos', expanded', done := t[..q] + value + t[endPos..], q + |value|, true, false;
      } else {
        ScanUnset(text, env, t, pos, q, endPos, expanded);
        pos', done := endPos, false;
      }
    }
  }

  /** Expands the environment variables in one string. */
  method Expand(text: string, env: Env) returns (r: string)
    ensures r == Expansion(text, env).0
  {
    var expanded;
    r, expanded := ExpandEnv(text, env);
  }

  /** Expands every string of a list, keeping the order and the number of items. */
  method ExpandAll(items: seq<string>, env: Env) returns (result: seq<string>)
    ensures |result| == |items|
    ensures forall i :: 0 <= i < |items| ==> result[i] == Expansion(items[i], env).0
  {
    result := [];
    for k := 0 to |items|
      invariant |result| == k
      invariant forall i :: 0 <= i < k ==> result[i] == Expansion(items[i], env).0
    {
      var e := Expand(items[k], env);
      result := result + [e];
    }
  }

  // ---------------------------------------------------------------------
  // The command shown as one string
  // ---------------------------------------------------------------------

  /**
   * White space as QChar::isSpace sees it: the ASCII controls TAB..CR,
   * NEL, NO-BREAK SPACE and the Unicode space, line and paragraph separators.
   */
  predicate IsSpace(ch: char)
  {
    ('\t' <= ch <= '\r') || ch == ' ' || ch == '\U{85}' || ch == '\U{A0}' || ch == '\U{1680}'
    || ('\U{2000}' <= ch <= '\U{200A}') || ch == '\U{2028}' || ch == '\U{2029}' || ch == '\U{202F}'
    || ch == '\U{205F}' || ch == '\U{3000}'
  }

  predicate HasSpace(arg: string)
  {
    exists j :: 0 <= j < |arg| && IsSpace(arg[j])
  }

  /** An argument as it appears in the full command: in double quotes when it holds white space. */
  function Quoted(arg: string): string
  {
    if HasSpace(arg) then ['"'] + arg + ['"'] else arg
  }

  /** The strings of `xs` joined with `sep` between neighbours (QStringList::join). */
  function Join(xs: seq<string>, sep: string): string
  {
    if |xs| == 0 then ""
    else if |xs| == 1 then xs[0]
    else Join(xs[..|xs| - 1], sep) + sep + xs[|xs| - 1]
  }

  function QuotedAll(args: seq<string>): (r: seq<string>)
    ensures |r| == |args|
    ensures forall i :: 0 <= i < |args| ==> r[i] == Quoted(args[i])
  {
    seq(|args|, i requires 0 <= i < |args| => Quoted(args[i]))
  }

  /** The command line: every argument quoted if it holds white space, joined with single spaces. */
  method FullCommand(c: ShellCommand) returns (r: string)
    ensures r == Join(QuotedAll(c.arguments), " ")
  {
    var quotedArgs := c.arguments;
    for i := 0 to |quotedArgs|
      invariant |quotedArgs| == |c.arguments|
      invariant forall k :: 0 <= k < i ==> quotedArgs[k] == Quoted(c.arguments[k])
      invariant forall k :: i <= k < |quotedArgs| ==> quotedArgs[k] == c.arguments[k]
    {
      var arg := quotedArgs[i];
      var hasSpace := false;
      for j := 0 to |arg|
        invariant hasSpace <==> exists k :: 0 <= k < j && IsSpace(arg[k])
      {
        if IsSpace(arg[j]) {
          hasSpace := true;
        }
      }
      if hasSpace {
        quotedArgs := quotedArgs[i := ['"'] + arg + ['"']];
      }
    }
    assert quotedArgs == QuotedAll(c.arguments);
    r := Join(quotedArgs, " ");
  }

  function SumLengths(xs: seq<string>): nat
  {
    if |xs| == 0 then 0 else SumLengths(xs[..|xs| - 1]) + |xs[|xs| - 1]|
  }

  function CountWithSpace(xs: seq<string>): nat
  {
    if |xs| == 0 then 0 else CountWithSpace(xs[..|xs| - 1]) + (if HasSpace(xs[|xs| - 1]) then 1 else 0)
  }

  /**
   * The length of the full command: every character of every argument, one
   * separator between neighbours, and two quotes per argument with white space.
   */
  lemma {:induction false} FullCommandLength(args: seq<string>)
    requires |args| > 0
    ensures |Join(QuotedAll(args), " ")| == SumLengths(args) + (|args| - 1) + 2 * CountWithSpace(args)
  {
    var q := QuotedAll(args);
    if |args| > 1 {
      var init := args[..|args| - 1];
      FullCommandLength(init);
      assert q[..|q| - 1] == QuotedAll(init);
    }
  }

  /** Without white space in any argument, the full command is the plain join. */
  lemma {:induction false} FullCommandWithoutSpaces(args: seq<string>)
    requires forall i :: 0 <= i < |args| ==> !HasSpace(args[i])
    ensures Join(QuotedAll(args), " ") == Join(args, " ")
  {
    assert QuotedAll(args) == args;
  }

  /** The last argument of the full command ends it, after a separator. */
  lemma JoinAppend(xs: seq<string>, x: string, sep: string)
    requires |xs| > 0
    ensures Join(xs + [x], sep) == Join(xs, sep) + sep + x
  {
    assert (xs + [x])[..|xs|] == xs;
  }
}
