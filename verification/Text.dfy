/** Decimal text: the conversions `lexical_cast<long>` and `lexical_cast<string>`
    on which variables and arithmetic rely. */
module Text {
  datatype Option<+T> = None | Some(value: T) {
    predicate IsFailure() { None? }
    function PropagateFailure<U>(): Option<U> requires None? { None }
    function Extract(): T requires Some? { value }
  }

  predicate IsDigit(c: char) { '0' <= c <= '9' }

  /** `isdigit(target[0])`; the terminating NUL makes the empty string a non-number. */
  predicate IsNumber(s: string) { s != "" && IsDigit(s[0]) }

  predicate AllDigits(s: string) { forall i | 0 <= i < |s| :: IsDigit(s[i]) }

  function DigitsValue(s: string): nat
    requires AllDigits(s)
  {
    if s == "" then 0
    else 10 * DigitsValue(s[..|s| - 1]) + (s[|s| - 1] - '0') as nat
  }

  function Digits(n: nat): (s: string)
    ensures s != "" && AllDigits(s) && DigitsValue(s) == n
  {
    var last := '0' + (n % 10) as char;
    if n < 10 then
      assert [last][..0] == "";
      [last]
    else
      var front := Digits(n / 10);
      assert (front + [last])[..|front|] == front;
      front + [last]
  }

  /** `lexical_cast<string>(long)`. */
  function FromInt(n: int): (s: string)
    ensures s != ""
    ensures n >= 0 ==> IsNumber(s)
  {
    if n < 0 then "-" + Digits(-n) else Digits(n)
  }

  /** `lexical_cast<long>(string)`: an optional sign, then at least one digit and nothing else. */
  function ToInt(s: string): Option<int> {
    if s == "" then None
    else
      var body := if s[0] == '-' || s[0] == '+' then s[1..] else s;
      if body == "" || !AllDigits(body) then None
      else
        var v: int := DigitsValue(body);
        Some(if s[0] == '-' then -v else v)
  }

  /** What a variable stores as a number reads back unchanged. */
  lemma IntRoundTrip(n: int)
    ensures ToInt(FromInt(n)) == Some(n)
  {
    if n < 0 {
      assert ("-" + Digits(-n))[1..] == Digits(-n);
    } else {
      assert IsDigit(Digits(n)[0]);
    }
  }

  function Join(words: seq<string>, sep: string): string {
    if words == [] then ""
    else if |words| == 1 then words[0]
    else words[0] + sep + Join(words[1..], sep)
  }

  /** `trim_right_if(value, is_any_of("\n"))`. */
  function TrimEols(s: string): string {
    if s != "" && s[|s| - 1] == '\n' then TrimEols(s[..|s| - 1]) else s
  }

  /** Lexicographic `<` of std::string. */
  predicate Less(a: string, b: string) {
    if b == "" then false
    else if a == "" then true
    else a[0] < b[0] || (a[0] == b[0] && Less(a[1..], b[1..]))
  }
}
