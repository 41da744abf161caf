/**
 * The two random coupon-code generators, taken as inputs: `nanoid(10)` and
 * `Math.random().toString(36).substring(2, 15).toUpperCase()`.
 */
module Codes {

  /** nanoid's default alphabet: `A-Z`, `a-z`, `0-9`, `_` and `-`. */
  predicate IsUrlSafe(ch: char) {
    ('A' <= ch <= 'Z') || ('a' <= ch <= 'z') || ('0' <= ch <= '9') || ch == '_' || ch == '-'
  }

  /** What `nanoid(10)` returns: ten URL-safe characters. */
  type NanoCode = s: string | |s| == 10 && forall i | 0 <= i < |s| :: IsUrlSafe(s[i])
    witness "0000000000"

  predicate IsLowerBase36(ch: char) {
    ('0' <= ch <= '9') || ('a' <= ch <= 'z')
  }

  predicate IsUpperBase36(ch: char) {
    ('0' <= ch <= '9') || ('A' <= ch <= 'Z')
  }

  /**
   * What `Math.random().toString(36)` returns for a number in [0, 1):
   * `"0"` for zero, otherwise `"0."` followed by base-36 digits.
   */
  type RandomText = s: string | s == "0" || (|s| >= 3 && s[0] == '0' && s[1] == '.' && forall i | 2 <= i < |s| :: IsLowerBase36(s[i]))
    witness "0"

  function UpperDigit(ch: char): (u: char)
    requires IsLowerBase36(ch)
    ensures IsUpperBase36(u) && LowerDigit(u) == ch
  {
    if 'a' <= ch <= 'z' then (ch as int - 32) as char else ch
  }

  function LowerDigit(ch: char): char {
    if 'A' <= ch <= 'Z' then (ch as int + 32) as char else ch
  }

  /** JavaScript `s.substring(start, end)` for `start <= end`: indices are clamped to the length. */
  function Substring(s: string, start: nat, end: nat): (r: string)
    requires start <= end
    ensures |r| <= end - start
    ensures start <= |s| ==> r == s[start..if end <= |s| then end else |s|]
    ensures start > |s| ==> r == ""
  {
    var e := if end <= |s| then end else |s|;
    var b := if start <= e then start else e;
    s[b..e]
  }

  function UpperAll(s: string): (r: string)
    requires forall i | 0 <= i < |s| :: IsLowerBase36(s[i])
    ensures |r| == |s|
    ensures forall i | 0 <= i < |r| :: IsUpperBase36(r[i]) && LowerDigit(r[i]) == s[i]
  {
    if s == [] then [] else [UpperDigit(s[0])] + UpperAll(s[1..])
  }

  /**
   * The code coupons/import.ts derives from one random draw: at most 13
   * upper-case base-36 digits, which are the draw's first fraction digits.
   */
  function ImportCode(text: RandomText): (code: string)
    ensures |code| <= 13
    ensures forall i | 0 <= i < |code| :: IsUpperBase36(code[i])
    ensures |code| == if |text| <= 2 then 0 else if |text| - 2 < 13 then |text| - 2 else 13
    ensures forall i | 0 <= i < |code| :: LowerDigit(code[i]) == text[2 + i]
  {
    UpperAll(Substring(text, 2, 15))
  }
}
