/** X.121 addresses (`x121.rs`): at most 15 decimal digits. */
module X121 {
  import opened Wrappers

  type Digit = d: int | 0 <= d <= 9

  datatype Digits = X121Addr(digits: seq<Digit>) {
    predicate IsNull() {
      digits == []
    }
  }

  type X121Addr = a: Digits | |a.digits| <= 15 witness X121Addr([])

  const NULL: X121Addr := X121Addr([])

  function FromDigits(nibbles: seq<Byte>): (r: Result<X121Addr>)
    ensures r.Ok? <==> |nibbles| <= 15 && forall n | n in nibbles :: n <= 9
    ensures r.Ok? ==> r.value.digits == nibbles
  {
    if |nibbles| > 15 then Err(TooLong)
    else if exists n | n in nibbles :: n > 9 then Err(BadAddress)
    else
      assert forall i | 0 <= i < |nibbles| :: nibbles[i] in nibbles;
      Ok(X121Addr(seq(|nibbles|, i requires 0 <= i < |nibbles| => nibbles[i] as Digit)))
  }
}
