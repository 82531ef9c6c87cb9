/** Parsed JSON values, and substrings. */
module Json {
  /** A number keeps its text. */
  datatype JSON =
    | Null
    | Bool(b: bool)
    | Num(text: string)
    | Str(s: string)
    | Arr(items: seq<JSON>)
    | Obj(fields: map<string, JSON>)

  /** One step from a value to a part of it. */
  datatype Step = At(index: nat) | Field(name: string)
  type Path = seq<Step>

  /** The member that carries a prompt-cache marker. */
  const CC := "cache_control"

  predicate Contains(s: string, p: string) {
    exists i: nat | i <= |s| :: Occurs(s, p, i)
  }

  predicate Occurs(s: string, p: string, i: nat) { i + |p| <= |s| && s[i..i + |p|] == p }

  lemma ContainsItself(s: string)
    ensures Contains(s, s)
  {
    assert s[0..0 + |s|] == s;
    assert Occurs(s, s, 0);
  }
}
