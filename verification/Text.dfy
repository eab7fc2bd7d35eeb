/**
 Checked text: the validators the services apply to strings and dates.
 Lengths count characters; a date keeps its text and, when it parses, its time in milliseconds.
 */
module Text {
  import opened Common

  predicate IsControl(c: char) {
    c as int < 0x20 || c as int == 0x7f
  }

  predicate IsSpace(c: char) {
    var u := c as int;
    || 0x09 <= u <= 0x0d || u == 0x20 || u == 0xa0 || u == 0x1680 || 0x2000 <= u <= 0x200a
    || u == 0x2028 || u == 0x2029 || u == 0x202f || u == 0x205f || u == 0x3000 || u == 0xfeff
  }

  predicate Trimmed(s: string) {
    s == "" || (!IsSpace(s[0]) && !IsSpace(s[|s| - 1]))
  }

  /** `s.trim()` */
  function Trim(s: string): string {
    if s == "" then s
    else if IsSpace(s[0]) then Trim(s[1..])
    else if IsSpace(s[|s| - 1]) then Trim(s[..|s| - 1])
    else s
  }

  lemma {:induction false} TrimShortens(s: string)
    ensures |Trim(s)| <= |s|
  {
    if s != "" && IsSpace(s[0]) {
      TrimShortens(s[1..]);
    } else if s != "" && IsSpace(s[|s| - 1]) {
      TrimShortens(s[..|s| - 1]);
    }
  }

  /** A text passes exactly if trimming leaves it as it is. */
  lemma TrimmedIff(s: string)
    ensures Trimmed(s) <==> Trim(s) == s
  {
    if s != "" {
      TrimShortens(s[1..]);
      TrimShortens(s[..|s| - 1]);
    }
  }

  predicate ControlFree(s: string) {
    forall i :: 0 <= i < |s| ==> !IsControl(s[i])
  }

  predicate Checked(s: string, limit: nat) {
    0 < |s| <= limit && Trimmed(s) && ControlFree(s)
  }

  /** What the validators ask of a text: it is not empty and not too long, trimming it changes nothing, and it holds no
      control character. */
  lemma CheckedIff(s: string, limit: nat)
    ensures Checked(s, limit) <==>
              s != "" && |s| <= limit && Trim(s) == s && forall c :: c in s ==> c >= ' ' && c != '\U{7f}'
  {
    TrimmedIff(s);
    assert (forall c :: c in s ==> !IsControl(c)) <==> ControlFree(s);
  }

  /** `Iso` is a clock reading rendered by toISOString, `Given` any text from outside with what Date.parse makes of
      it. */
  datatype DateText = Iso(at: int) | Given(text: string, parsed: Option<int>)

  predicate ValidDate(d: DateText) {
    d.Iso? || (Checked(d.text, 128) && d.parsed.Some?)
  }

  function Millis(d: DateText): Option<int> {
    if d.Iso? then Some(d.at) else d.parsed
  }
}
