/** The closed, ordered data classes of the policy vocabulary. */
module Sensitivity {

  datatype DataClass = Public | Internal | Confidential | Restricted
  {
    function Rank(): nat {
      match this
      case Public => 0
      case Internal => 1
      case Confidential => 2
      case Restricted => 3
    }
  }

  /** The order of the classes, pair by pair. */
  predicate AtMost(c: DataClass, d: DataClass) {
    || c == Public || d == Restricted
    || (c == Internal && d != Public)
    || (c == Confidential && d == Confidential)
  }

  lemma RankIsTheOrder(c: DataClass, d: DataClass)
    ensures c.Rank() <= d.Rank() <==> AtMost(c, d)
  {
  }
}
