/** Decimal integers as Go's strconv prints and reads them. */
module Numbers {
  import opened Naming

  function Digits(n: nat): string {
    if n < 10 then [('0' as int + n) as char] else Digits(n / 10) + [('0' as int + n % 10) as char]
  }

  /** strconv.Itoa */
  function Itoa(n: int): string { if n < 0 then "-" + Digits(-n) else Digits(n) }

  function ParseDigits(s: string): Result<nat> {
    if s == "" then Ok(0)
    else if !('0' <= s[|s| - 1] <= '9') then Err("not a digit")
    else
      match ParseDigits(s[..|s| - 1])
      case Ok(n) => Ok(10 * n + (s[|s| - 1] as int - '0' as int))
      case Err(message) => Err(message)
  }

  /** strconv.Atoi on numbers that fit in an int. */
  function Atoi(s: string): Result<int> {
    var signed := s != "" && (s[0] == '-' || s[0] == '+');
    var digits := if signed then s[1..] else s;
    if digits == "" then Err("empty number")
    else
      match ParseDigits(digits)
      case Ok(n) =>
        var value: int := n;
        Ok(if signed && s[0] == '-' then -value else value)
      case Err(message) => Err(message)
  }

  lemma {:induction false} DigitsRead(n: nat)
    ensures Digits(n) != "" && ParseDigits(Digits(n)) == Ok(n)
    ensures forall i :: 0 <= i < |Digits(n)| ==> '0' <= Digits(n)[i] <= '9'
  {
    if n >= 10 {
      DigitsRead(n / 10);
      var s := Digits(n);
      assert s[..|s| - 1] == Digits(n / 10);
    } else {
      assert Digits(n)[..0] == "";
    }
  }

  lemma ItoaRead(n: int)
    ensures Atoi(Itoa(n)) == Ok(n)
    ensures forall i :: 0 <= i < |Itoa(n)| ==> '0' <= Itoa(n)[i] <= '9' || Itoa(n)[i] == '-'
  {
    DigitsRead(if n < 0 then -n else n);
    if n < 0 {
      assert Itoa(n)[1..] == Digits(-n);
    }
  }
}
