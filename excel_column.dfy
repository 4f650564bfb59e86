// Column letters of the sheet pipeline (indexToExcelColumn in
// src/lib/google-document-util/sheet-data-pipeline.svelte.ts): bijective base 26.

module ExcelColumn {
  import opened Wrappers

  predicate IsColumnLetter(c: char) { 'A' <= c <= 'Z' }

  predicate IsColumnName(s: string) {
    |s| > 0 && forall k :: 0 <= k < |s| ==> IsColumnLetter(s[k])
  }

  /** The letters of the 1-based column number `n`; `""` for 0. */
  function Letters(n: nat): (s: string)
    ensures n == 0 <==> s == ""
    ensures forall k :: 0 <= k < |s| ==> IsColumnLetter(s[k])
  {
    if n == 0 then ""
    else Letters((n - 1) / 26) + [(65 + (n - 1) % 26) as char]
  }

  /** The 1-based column number a string of letters stands for. */
  function Value(s: string): nat
    requires forall k :: 0 <= k < |s| ==> IsColumnLetter(s[k])
  {
    if |s| == 0 then 0
    else
      assert IsColumnLetter(s[|s| - 1]);
      Value(s[..|s| - 1]) * 26 + (s[|s| - 1] as int - 64)
  }

  /** `indexToExcelColumn`: an error for a negative index, else the letters of
      `index + 1`. */
  method IndexToExcelColumn(index: int) returns (r: Result<string, string>)
    ensures index < 0 <==> r.Err?
    ensures r.Ok? ==> r.value == Letters(index + 1)
  {
    if index < 0 {
      return Err("Index must be non-negative");
    }
    var column := "";
    var n := index + 1;
    while n > 0
      invariant n >= 0
      invariant Letters(n) + column == Letters(index + 1)
    {
      var remainder := (n - 1) % 26;
      column := [(65 + remainder) as char] + column;
      n := (n - 1) / 26;
    }
    return Ok(column);
  }

  // ---------------------------------------------------------------------------
  // Properties

  /** Reading the letters back gives the number. */
  lemma {:induction false} ValueOfLetters(n: nat)
    ensures Value(Letters(n)) == n
  {
    if n > 0 {
      var s := Letters(n);
      ValueOfLetters((n - 1) / 26);
      assert s[..|s| - 1] == Letters((n - 1) / 26);
    }
  }

  /** Every non-empty string of capital letters names exactly one column. */
  lemma {:induction false} LettersOfValue(s: string)
    requires forall k :: 0 <= k < |s| ==> IsColumnLetter(s[k])
    ensures Letters(Value(s)) == s
  {
    if |s| > 0 {
      var init := s[..|s| - 1];
      var d := s[|s| - 1] as int - 64;
      LettersOfValue(init);
      var n := Value(init) * 26 + d;
      assert (n - 1) / 26 == Value(init) && (n - 1) % 26 == d - 1;
      assert Letters(n) == Letters(Value(init)) + [(64 + d) as char];
      assert s == init + [s[|s| - 1]];
    }
  }

  /** Distinct indices get distinct names, and every column name is some index's. */
  lemma ExcelColumnBijective(i: nat, j: nat, s: string)
    requires IsColumnName(s)
    ensures Letters(i + 1) == Letters(j + 1) ==> i == j
    ensures IsColumnName(Letters(i + 1))
    ensures Value(s) >= 1 && Letters((Value(s) - 1) + 1) == s
  {
    LettersInjective(i + 1, j + 1);
    NameHasValue(s);
  }

  lemma LettersInjective(m: nat, n: nat)
    ensures Letters(m) == Letters(n) ==> m == n
  {
    if Letters(m) == Letters(n) {
      ValueOfLetters(m);
      ValueOfLetters(n);
    }
  }

  lemma NameHasValue(s: string)
    requires IsColumnName(s)
    ensures Value(s) >= 1 && Letters(Value(s)) == s
  {
    LettersOfValue(s);
  }

  /** The documented examples. */
  lemma ExcelColumnExamples()
    ensures Letters(0 + 1) == "A" && Letters(25 + 1) == "Z" && Letters(26 + 1) == "AA"
    ensures Letters(701 + 1) == "ZZ" && Letters(702 + 1) == "AAA"
  {
    assert Letters(1) == "A";
    assert Letters(26) == "Z";
    assert Letters(27) == Letters(1) + "A";
    assert Letters(702) == Letters(26) + "Z";
    assert Letters(703) == Letters(27) + "A";
  }
}
