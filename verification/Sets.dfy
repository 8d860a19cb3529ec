// Going through a set of numbers in order.

module Sets {
  method Least(s: set<nat>) returns (m: nat)
    requires s != {}
    ensures m in s && forall x | x in s :: m <= x
  {
    m :| m in s;
    var rest := s - {m};
    while rest != {}
      invariant m in s && rest <= s
      invariant forall x | x in s && x !in rest :: m <= x
    {
      var x: nat :| x in rest;
      rest := rest - {x};
      if x < m {
        m := x;
      }
    }
  }
}
