/** What several modules share: optional values, results, and facts about sets and quotients. */
module Common {

  datatype Option<+T> = None | Some(value: T)

  datatype Result<+T, +E> = Ok(value: T) | Err(error: E)

  lemma AnElement<T>(s: set<T>) returns (x: T)
    requires s != {}
    ensures x in s
  {
    x :| x in s;
  }

  lemma SignOfFactor(x: real, c: real)
    requires c > 0.0 && x * c >= 0.0
    ensures x >= 0.0
  {
  }

  lemma TimesBack(a: real, b: real)
    requires b > 0.0
    ensures a / b * b == a
  {
  }
}
