/** The two ways the decoder glues strings together with a comma:
    `string.Join(",", parts)` for the cells of a row, and LINQ's
    `Aggregate((current, next) => current + "," + next)` for the items of an
    array or time series. */
module Text {
  import opened Wrappers

  /** `string.Join(sep, parts)`: the parts with `sep` between neighbours;
      the empty list joins to the empty string. */
  function Join(sep: string, parts: seq<string>): string
  {
    if |parts| == 0 then ""
    else if |parts| == 1 then parts[0]
    else parts[0] + sep + Join(sep, parts[1..])
  }

  /** LINQ `Aggregate` without a seed over the lambda
      `(current, next) => current + "," + next`: a left fold that starts from
      the first element. On an empty sequence it throws, here `None`. */
  function Aggregate(parts: seq<string>): Option<string>
  {
    if |parts| == 0 then None
    else if |parts| == 1 then Some(parts[0])
    else
      match Aggregate(parts[..|parts| - 1])
      case None => None
      case Some(current) => Some(current + "," + parts[|parts| - 1])
  }

  /** Joining a list extended at the end adds one separator and the new part. */
  lemma {:induction false} JoinSnoc(sep: string, parts: seq<string>, last: string)
    requires |parts| > 0
    ensures Join(sep, parts + [last]) == Join(sep, parts) + sep + last
  {
    if |parts| == 1 {
      assert parts + [last] == [parts[0], last];
      assert ([parts[0], last])[1..] == [last];
    } else {
      assert (parts + [last])[1..] == parts[1..] + [last];
      JoinSnoc(sep, parts[1..], last);
    }
  }

  /** The seedless `Aggregate` fails exactly on the empty sequence, and
      otherwise produces what `string.Join(",", …)` produces. */
  lemma {:induction false} AggregateIsJoin(parts: seq<string>)
    ensures Aggregate(parts) == if |parts| == 0 then None else Some(Join(",", parts))
  {
    if |parts| > 1 {
      var init := parts[..|parts| - 1];
      AggregateIsJoin(init);
      assert init + [parts[|parts| - 1]] == parts;
      JoinSnoc(",", init, parts[|parts| - 1]);
    }
  }
}
