/**
 * log_sql: when show_sql is on, the statement is written out with every
 * parameter name replaced, one after the other, by the quoted value.
 */
module SqlLog {
  import opened Outcomes

  /** One bound parameter: its key and its value, both as PHP renders them in a string. */
  datatype Param = Param(key: string, value: string)

  /** `search` occurs in `subject` starting at index `i`. */
  predicate OccursAt(search: string, subject: string, i: int)
  {
    0 <= i <= |subject| - |search| && subject[i..i + |search|] == search
  }

  /** `search` occurs somewhere in `subject`. */
  ghost predicate Occurs(search: string, subject: string)
  {
    exists i :: OccursAt(search, subject, i)
  }

  /**
   * PHP's str_replace with one search string: every occurrence, scanning left
   * to right without overlap, is replaced; an empty search changes nothing.
   */
  function Replace(search: string, replacement: string, subject: string): (r: string)
    ensures |search| == |replacement| ==> |r| == |subject|
    decreases |subject|
  {
    if search == [] || |subject| < |search| then subject
    else if subject[..|search|] == search then
      replacement + Replace(search, replacement, subject[|search|..])
    else
      [subject[0]] + Replace(search, replacement, subject[1..])
  }

  /** The value as interpolated into "'$v'". */
  function Quoted(v: string): string { "'" + v + "'" }

  /** The statement after the replacements for the first |params| parameters, in order. */
  function Substituted(sql: string, params: seq<Param>): string
    decreases |params|
  {
    if params == [] then sql
    else
      var last := params[|params| - 1];
      Replace(last.key, Quoted(last.value), Substituted(sql, params[..|params| - 1]))
  }

  /** What log_sql writes: nothing when show_sql is off. */
  function LogLine(sql: string, params: seq<Param>, showSql: bool): Option<string>
  {
    if showSql then Some(Substituted(sql, params)) else None
  }

  /** The loop of log_sql; a missing parameter array is the empty sequence. */
  method LogSql(sql: string, params: seq<Param>, showSql: bool) returns (line: Option<string>)
    ensures line == LogLine(sql, params, showSql)
    ensures showSql ==> line.Some? && (params == [] ==> line.value == sql)
  {
    if !showSql {
      return None;
    }
    if |params| > 0 {
      var text := sql;
      var i := 0;
      while i < |params|
        invariant 0 <= i <= |params|
        invariant text == Substituted(sql, params[..i])
      {
        assert params[..i + 1][..i] == params[..i];
        text := Replace(params[i].key, Quoted(params[i].value), text);
        i := i + 1;
      }
      assert params[..i] == params;
      line := Some(text);
    } else {
      line := Some(sql);
    }
  }

  lemma {:induction false} NotOccursTail(search: string, subject: string)
    requires |subject| > 0 && !Occurs(search, subject)
    ensures !Occurs(search, subject[1..])
  {
    forall i | OccursAt(search, subject[1..], i) ensures OccursAt(search, subject, i + 1) {
      assert subject[1..][i..i + |search|] == subject[i + 1..i + 1 + |search|];
    }
  }

  /** A text in which the key does not occur is left as it is. */
  lemma {:induction false} ReplaceAbsent(search: string, replacement: string, subject: string)
    requires !Occurs(search, subject)
    ensures Replace(search, replacement, subject) == subject
    decreases |subject|
  {
    if search != [] && |subject| >= |search| {
      assert subject[..|search|] != search by { assert !OccursAt(search, subject, 0); }
      NotOccursTail(search, subject);
      ReplaceAbsent(search, replacement, subject[1..]);
    }
  }

  /** Replacing a key by itself changes nothing. */
  lemma {:induction false} ReplaceSelf(search: string, subject: string)
    ensures Replace(search, search, subject) == subject
    decreases |subject|
  {
    if search != [] && |subject| >= |search| {
      if subject[..|search|] == search {
        ReplaceSelf(search, subject[|search|..]);
        assert subject[..|search|] + subject[|search|..] == subject;
      } else {
        ReplaceSelf(search, subject[1..]);
        assert [subject[0]] + subject[1..] == subject;
      }
    }
  }

  /** A one-character key that the replacement does not contain is gone afterwards. */
  lemma {:induction false} ReplaceRemovesChar(c: char, replacement: string, subject: string)
    requires c !in replacement
    ensures c !in Replace([c], replacement, subject)
    decreases |subject|
  {
    if |subject| >= 1 {
      if subject[..1] == [c] {
        ReplaceRemovesChar(c, replacement, subject[1..]);
      } else {
        assert subject[0] != c by { assert subject[..1] == [subject[0]]; }
        ReplaceRemovesChar(c, replacement, subject[1..]);
      }
    }
  }

  /** Substituting a list of parameters is substituting its parts one after the other. */
  lemma {:induction false} SubstitutedAppend(sql: string, ps: seq<Param>, qs: seq<Param>)
    ensures Substituted(sql, ps + qs) == Substituted(Substituted(sql, ps), qs)
    decreases |qs|
  {
    if qs == [] {
      assert ps + qs == ps;
    } else {
      var n := |qs| - 1;
      assert (ps + qs)[..|ps + qs| - 1] == ps + qs[..n];
      assert (ps + qs)[|ps + qs| - 1] == qs[n];
      SubstitutedAppend(sql, ps, qs[..n]);
    }
  }

  /** A statement in which no parameter key occurs is logged verbatim. */
  lemma {:induction false} SubstitutedUnmentioned(sql: string, params: seq<Param>)
    requires forall i :: 0 <= i < |params| ==> !Occurs(params[i].key, sql)
    ensures Substituted(sql, params) == sql
    decreases |params|
  {
    if params != [] {
      var n := |params| - 1;
      SubstitutedUnmentioned(sql, params[..n]);
      ReplaceAbsent(params[n].key, Quoted(params[n].value), sql);
    }
  }

  /** A one-character key that does not occur in `prefix` leaves that prefix alone. */
  lemma {:induction false} ReplaceCharAfter(c: char, replacement: string, prefix: string, rest: string)
    requires c !in prefix
    ensures Replace([c], replacement, prefix + rest) == prefix + Replace([c], replacement, rest)
    decreases |prefix|
  {
    if prefix != [] {
      var s := prefix + rest;
      assert s[..1] == [prefix[0]] && s[1..] == prefix[1..] + rest;
      ReplaceCharAfter(c, replacement, prefix[1..], rest);
      assert [prefix[0]] + prefix[1..] == prefix;
    } else {
      assert prefix + rest == rest;
    }
  }

  /**
   * Integer keys are replaced as their decimal text: with a positional
   * parameter list the key "0" rewrites the digit of the statement (as in
   * "LIMIT 10"), not a placeholder.
   */
  lemma PositionalKeyRewritesDigit(prefix: string, value: string)
    requires '0' !in prefix
    ensures Substituted(prefix + "0", [Param("0", value)]) == prefix + Quoted(value)
  {
    ReplaceCharAfter('0', Quoted(value), prefix, "0");
    assert Replace("0", Quoted(value), "0") == Quoted(value) by {
      assert "0"[..1] == "0" && "0"[1..] == [];
    }
    assert [Param("0", value)][..0] == [];
  }
}
