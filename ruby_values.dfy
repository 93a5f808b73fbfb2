/**
 * The small part of Ruby's object model that the searchgasm core inspects:
 * hash lookups that default to nil, truthiness and ActiveSupport's `blank?`.
 */
module RubyValues {

  datatype Option<+T> = None | Some(value: T)

  /** A Ruby object as it can appear as a value in a find-options hash. */
  datatype Value =
    | Nil
    | Bool(b: bool)
    | Int(i: int)
    | Str(s: string)
    | Sym(name: string)
    | Arr(items: seq<Value>)
    | Hash(pairs: seq<(Value, Value)>)

  /** `h[k]` on a hash without a default: nil when the key is absent. */
  function Lookup<K>(h: map<K, Value>, k: K): (v: Value)
    ensures k !in h ==> v == Nil
    ensures k in h ==> v == h[k]
  {
    if k in h then h[k] else Nil
  }

  /** Only nil and false are false in a Ruby condition. */
  predicate Truthy(v: Value) {
    !(v.Nil? || v == Bool(false))
  }

  /** The characters `\s` matches in a Ruby regular expression. */
  predicate IsSpace(c: char) {
    c == ' ' || c == '\t' || c == '\n' || c == '\U{B}' || c == '\U{C}' || c == '\r'
  }

  /** `s !~ /\S/`: the string has no character other than white space. */
  predicate AllSpace(s: string) {
    forall i :: 0 <= i < |s| ==> IsSpace(s[i])
  }

  /**
   * ActiveSupport's `blank?`: nil and false are blank, a string is blank when
   * it has no non-space character, an array or a hash when it is empty;
   * `true`, numbers and symbols never are.
   */
  predicate Blank(v: Value) {
    match v
    case Nil => true
    case Bool(b) => !b
    case Int(_) => false
    case Str(s) => AllSpace(s)
    case Sym(_) => false
    case Arr(items) => items == []
    case Hash(pairs) => pairs == []
  }
}
