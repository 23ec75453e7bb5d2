/** What the configuration printers and parsers have in common: parameters of the form name=value. */
module BaselineParams {
  import opened Text
  import opened BaselineKeys

  const DATA_SIZE := 1024

  function If(b: bool, token: string): seq<string> {
    if b then [token] else []
  }

  function Setting(name: string, value: string): string {
    name + "=" + value
  }

  function Print<T(==)>(table: seq<Key<T>>, value: T): string {
    match NameOf(table, value)
    case Some(name) => name
    case None => "(null)"
  }

  /** Unspecified stands for a number that does not fit in an int, which atoi does not define. */
  datatype Parsed<T> = Parsed(config: T) | Rejected | Unspecified

  function ParamName(token: string): string {
    token[..Find(token, '=')]
  }

  function ParamValue(token: string): Option<string> {
    if Find(token, '=') == |token| then None else Some(token[Find(token, '=') + 1..])
  }

  /** Looks a name up in the table of the configuration's version. */
  function Lookup<T>(v: Version, keys: Profile -> seq<Key<T>>, name: string): Option<T> {
    match FindProfileVersion(v)
    case None => None
    case Some(p) => ValueOf(keys(p), name)
  }

  lemma {:induction false} SplitToken(name: string, value: string)
    requires '=' !in name
    ensures ParamName(Setting(name, value)) == name && ParamValue(Setting(name, value)) == Some(value)
  {
    var t := Setting(name, value);
    FindIs(name, '=', value);
    assert t == name + ['='] + value;
    assert t[..|name|] == name && t[|name| + 1..] == value;
  }

  predicate Contains(s: string, c: char) {
    c in s
  }

  lemma {:induction false} CutAt(a: string, c: char, b: string)
    requires c !in a
    ensures var s := a + [c] + b;
            Find(s, c) == |a| && s[..|a|] == a && s[|a| + 1..] == b
  {
    FindIs(a, c, b);
  }

  predicate AllClean(ts: seq<string>) {
    forall i :: 0 <= i < |ts| ==> Clean(ts[i])
  }

  lemma {:induction false} SettingIsClean(name: string, value: string)
    requires Clean(name) && NoDelimiter(value)
    ensures Clean(Setting(name, value))
  {
  }

  lemma {:induction false} SpacedLength(a: seq<string>, b: bool, token: string)
    ensures |Spaced(a + If(b, token))| <= |Spaced(a)| + |token| + 2
    ensures Spaced(a + If(b, token)) == Spaced(a) + if b then " " + token + ";" else ""
  {
    hide Spaced;
    SpacedConcat(a, If(b, token));
    SpacedIf(b, token);
  }

  lemma {:induction false} SpacedIf(b: bool, token: string)
    ensures Spaced(If(b, token)) == if b then " " + token + ";" else ""
  {
    assert [token][1..] == [];
    assert " " + token + ";" + "" == " " + token + ";";
  }
}
