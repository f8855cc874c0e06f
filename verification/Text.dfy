/** White space at the ends of a text, and the title rule that trims before it cuts. */
module Text {

  /** `strings.TrimSpace`, for whatever counts as white space. */
  function TrimLeft(s: string, space: char -> bool): string {
    if s != "" && space(s[0]) then TrimLeft(s[1..], space) else s
  }

  function TrimRight(s: string, space: char -> bool): (r: string)
    ensures r <= s
  {
    if s != "" && space(s[|s| - 1]) then TrimRight(s[..|s| - 1], space) else s
  }

  function Trim(s: string, space: char -> bool): string {
    TrimRight(TrimLeft(s, space), space)
  }

  /** No white space at either end. */
  predicate Trimmed(s: string, space: char -> bool) {
    s == "" || (!space(s[0]) && !space(s[|s| - 1]))
  }

  lemma {:induction false} TrimLeftEnds(s: string, space: char -> bool)
    ensures var r := TrimLeft(s, space); r == "" || !space(r[0])
  {
    if s != "" && space(s[0]) {
      TrimLeftEnds(s[1..], space);
    }
  }

  lemma {:induction false} TrimRightEnds(s: string, space: char -> bool)
    ensures var r := TrimRight(s, space); (r == "" || !space(r[|r| - 1])) && (r != "" ==> r[0] == s[0])
  {
    if s != "" && space(s[|s| - 1]) {
      TrimRightEnds(s[..|s| - 1], space);
    }
  }

  lemma TrimTrims(s: string, space: char -> bool)
    ensures Trimmed(Trim(s, space), space)
  {
    TrimLeftEnds(s, space);
    TrimRightEnds(TrimLeft(s, space), space);
  }

  lemma TrimStays(s: string, space: char -> bool)
    requires Trimmed(s, space)
    ensures Trim(s, space) == s
  {
  }

  const TITLE_RUNES := 200

  /** `sanitizeBrowserTitle`, on valid text. */
  function Title(s: string, space: char -> bool): string {
    var t := Trim(s, space);
    if |t| > TITLE_RUNES then t[..TITLE_RUNES] else t
  }

  /** A title that is stored is stored unchanged again, unless it was cut right behind white
      space: then saving it once more takes that off as well. */
  lemma TitleStable(s: string, space: char -> bool)
    ensures Title(Title(s, space), space) == Title(s, space)
            <==> !(|Trim(s, space)| > 200 && space(Trim(s, space)[199]))
  {
    var t := Trim(s, space);
    TrimTrims(s, space);
    var c := Title(s, space);
    if |t| > 200 {
      assert !space(c[0]);
      assert TrimLeft(c, space) == c;
      if !space(c[199]) {
        TrimStays(c, space);
      }
    } else {
      TrimStays(t, space);
    }
  }

  /** One such title. */
  lemma TitleChanges()
    ensures var s := seq(199, _ => 'a') + " b"; var space := (c: char) => c == ' ';
            Title(Title(s, space), space) != Title(s, space)
  {
    var s, space := seq(199, _ => 'a') + " b", (c: char) => c == ' ';
    assert s[0] == 'a' && s[|s| - 1] == 'b';
    TrimStays(s, space);
    assert s[199] == ' ';
    TitleStable(s, space);
  }
}
