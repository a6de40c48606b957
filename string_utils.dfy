/** `StringUtils.upperFirst`: a string with its first character upper-cased. */
module StringUtils {

  /** The upper-case form of an ASCII letter; other characters are kept as they are (non-ASCII case mapping is not modelled). */
  function ToUpper(c: char): (u: char)
    ensures 'a' <= c <= 'z' ==> 'A' <= u <= 'Z'
    ensures !('a' <= c <= 'z') ==> u == c
  {
    if 'a' <= c <= 'z' then (c as int - 'a' as int + 'A' as int) as char else c
  }

  /** `upperFirst`: the first character in upper case, the rest as it was. */
  function UpperFirst(input: string): (r: string)
    ensures |r| == |input|
    ensures |input| > 0 ==> r[0] == ToUpper(input[0])
    ensures |input| > 0 ==> r[1..] == input[1..]
  {
    if input == [] then "" else [ToUpper(input[0])] + input[1..]
  }

  /** Upper-casing the first character twice changes nothing more. */
  lemma UpperFirstIdempotent(input: string)
    ensures UpperFirst(UpperFirst(input)) == UpperFirst(input)
  {
  }

  lemma UpperFirstExamples()
    ensures UpperFirst("hello") == "Hello"
    ensures UpperFirst("h") == "H"
    ensures UpperFirst("") == ""
  {
  }
}
