/** The value that flows through the pipeline and the broker
    (04-fprocessor/main.go, type `Message`), and the label the generator gives it. */
module Messages {
  import Decimal

  datatype Message = Message(id: int, state: int, description: string)

  /** The copy a stage makes before forwarding: only `State` differs. */
  function WithState(m: Message, s: int): (r: Message)
    ensures r.state == s
    ensures r.id == m.id && r.description == m.description
  {
    m.(state := s)
  }

  const DescriptionPrefix: string := "file-"

  /** `fmt.Sprintf("file-%03d", i)`. */
  function Description(i: nat): (d: string)
    ensures |d| >= |DescriptionPrefix| + 3
    ensures d[..|DescriptionPrefix|] == DescriptionPrefix
  {
    DescriptionPrefix + Decimal.Pad3(i)
  }

  datatype Option<T> = None | Some(value: T)

  /** Reads an id back from a generator label: the partner of `Description`. */
  function ParseDescription(d: string): (r: Option<nat>)
    ensures r.Some? ==> |d| >= |DescriptionPrefix| + 3 && d[..|DescriptionPrefix|] == DescriptionPrefix
  {
    var n := |DescriptionPrefix|;
    if |d| >= n + 3 && d[..n] == DescriptionPrefix && Decimal.AllDigits(d[n..])
    then Some(Decimal.Value(d[n..]))
    else None
  }

  /** Every label the generator writes names the id it was made from. */
  lemma DescriptionRoundTrip(i: nat)
    ensures ParseDescription(Description(i)) == Some(i)
  {
    var d := Description(i);
    assert d[|DescriptionPrefix|..] == Decimal.Pad3(i);
  }

  /** Different ids never share a label. */
  lemma DescriptionInjective(i: nat, j: nat)
    requires Description(i) == Description(j)
    ensures i == j
  {
    DescriptionRoundTrip(i);
    DescriptionRoundTrip(j);
  }

  lemma DescriptionExamples()
    ensures Description(7) == "file-007"
    ensures Description(1234) == "file-1234"
  {
    Decimal.Pad3Examples();
  }
}
