/** The pieces of the C++ standard library that both lexers and both
    `Object` classes rely on: `std::isspace` and `std::isdigit` from
    <cctype> in the "C" locale, and `std::map::emplace`. */
module CppStd {

  /** `std::isspace` in the "C" locale: space, \t, \n, \v, \f and \r. */
  predicate IsSpace(c: char) {
    c == ' ' || c == '\t' || c == '\n' || c == '\U{0B}' || c == '\U{0C}' || c == '\r'
  }

  /** `std::isdigit`: the decimal digits only. */
  predicate IsDigit(c: char) {
    '0' <= c <= '9'
  }

  /** `std::map::emplace(k, v)`: inserts only when the key is absent, so an
      existing entry is never overwritten. */
  function Emplace<K, V>(m: map<K, V>, k: K, v: V): (r: map<K, V>)
    ensures r.Keys == m.Keys + {k}
    ensures r[k] == (if k in m then m[k] else v)
    ensures forall k' :: k' in m && k' != k ==> r[k'] == m[k']
  {
    if k in m then m else m[k := v]
  }
}
