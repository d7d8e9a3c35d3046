/** Movie identity and the movie snapshot the stores keep. */
module Movies {
  import opened Options

  /** A movie id as JavaScript sees it: the catalog hands out integral numbers, and a
      route parameter arrives as a string. `===` tells the two kinds apart. */
  datatype Id = Num(n: int) | Str(s: string)

  /** A movie snapshot: the five catalog fields copied at insertion time. */
  datatype MovieRef = MovieRef(
    id: Id,
    title: string,
    posterPath: Option<string>,
    voteAverage: real,
    releaseDate: string)

  /** The character of a decimal digit. */
  function DigitChar(d: nat): (c: char)
    requires d < 10
    ensures '0' <= c <= '9'
  {
    (48 + d) as char
  }

  /** The decimal digits of `n`, most significant first, with no leading zero. */
  function Digits(n: nat): (r: string)
    ensures |r| >= 1
    ensures forall i :: 0 <= i < |r| ==> '0' <= r[i] <= '9'
    ensures n >= 10 ==> |r| >= 2
    decreases n
  {
    if n < 10 then [DigitChar(n)] else Digits(n / 10) + [DigitChar(n % 10)]
  }

  /** `String(n)` for an integral JavaScript number. */
  function NumberString(n: int): (r: string)
    ensures |r| >= 1
    ensures forall i :: 1 <= i < |r| ==> '0' <= r[i] <= '9'
    ensures n >= 0 ==> '0' <= r[0] <= '9'
  {
    if n < 0 then "-" + Digits(-n) else Digits(n)
  }

  /** The property key a JavaScript object uses for `obj[id]`: ids are coerced to strings,
      so `Num(7)` and `Str("7")` name the same slot. */
  function PropertyKey(id: Id): (r: string)
    ensures id.Str? ==> r == id.s
    ensures id.Num? && 0 <= id.n ==> r == Digits(id.n)
    ensures id.Num? && id.n < 0 ==> |r| >= 2 && r[0] == '-' && r[1..] == Digits(-id.n)
  {
    match id
    case Num(n) => NumberString(n)
    case Str(s) => s
  }

  /** Different numbers have different digit strings. */
  lemma {:induction false} DigitsInjective(a: nat, b: nat)
    requires Digits(a) == Digits(b)
    ensures a == b
    decreases a
  {
    var da, db := Digits(a), Digits(b);
    if a < 10 {
      assert |db| == 1;
      assert da[0] == DigitChar(a) && db[0] == DigitChar(b);
    } else {
      assert |db| >= 2;
      assert da == Digits(a / 10) + [DigitChar(a % 10)];
      assert db == Digits(b / 10) + [DigitChar(b % 10)];
      assert da[|da| - 1] == DigitChar(a % 10) && db[|db| - 1] == DigitChar(b % 10);
      assert da[..|da| - 1] == Digits(a / 10) && db[..|db| - 1] == Digits(b / 10);
      DigitsInjective(a / 10, b / 10);
    }
  }

  /** A number's string starts with a minus sign exactly when the number is negative. */
  lemma NumberStringSign(n: int)
    ensures |NumberString(n)| >= 1
    ensures NumberString(n)[0] == '-' <==> n < 0
  {
    if n >= 0 {
      assert '0' <= Digits(n)[0] <= '9';
    }
  }

  /** Distinct numeric ids never share an object slot. */
  lemma NumericKeysDistinct(a: int, b: int)
    requires a != b
    ensures PropertyKey(Num(a)) != PropertyKey(Num(b))
  {
    NumberStringSign(a);
    NumberStringSign(b);
    var sa, sb := NumberString(a), NumberString(b);
    if sa == sb {
      if a < 0 {
        assert sa[1..] == Digits(-a) && sb[1..] == Digits(-b);
        DigitsInjective(-a, -b);
      } else {
        DigitsInjective(a, b);
      }
    }
  }
}
