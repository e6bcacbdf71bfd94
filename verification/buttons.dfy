/** `handlers/buttons_handler.py`: the paginated theme list of a section
    with its progress markers, the keyboard under a chosen theme
    (`Markups.theme_chosen_markup` of `enums/markups.py`) and the "mark as
    done" button. Callback data are strings; button texts are reduced to
    what tells the buttons apart. */
module Buttons {
  import opened Wrappers
  import opened Builtins
  import opened Entities
  import Effects

  /** Themes per page of the section list. */
  const PerPage := 5

  /** The progress markers: green, yellow, orange, red. */
  datatype Marker = Green | Yellow | Orange | Red

  datatype Button =
    | ThemeButton(marker: Marker, theme: int, section: int)
    | PageButton(forward: bool, data: string)
    | SectionLink(data: string, triangle: bool)
    | ToSections
    | DeleteButton
    | StartQuiz(shuffle: bool, theme: int)
    | MarkTheme(data: string)

  type Keyboard = seq<seq<Button>>

  /** The marker of a theme: green when done in full, else yellow when
      done in part, else orange when tried, else red. */
  function MarkerOf(u: User, theme: int): (m: Marker)
    ensures m == Green <==> Some(theme) in u.themesDoneFull
    ensures m == Yellow <==> Some(theme) !in u.themesDoneFull && Some(theme) in u.themesDoneParticular
    ensures m == Orange <==>
              Some(theme) !in u.themesDoneFull && Some(theme) !in u.themesDoneParticular && Some(theme) in u.themesTried
    ensures m == Red <==>
              Some(theme) !in u.themesDoneFull && Some(theme) !in u.themesDoneParticular && Some(theme) !in u.themesTried
  {
    if Some(theme) in u.themesDoneFull then Green
    else if Some(theme) in u.themesDoneParticular then Yellow
    else if Some(theme) in u.themesTried then Orange
    else Red
  }

  // ---------------------------------------------------------------------
  // Callback data of the section list

  /** `f"page_{page + 1}_{section}"`, the forward arrow's data. */
  function ForwardData(page: int, section: int): string {
    "page_" + IntToString(page + 1) + "_" + IntToString(section)
  }

  /** `f"page_{page - 1},{section}"`, the back arrow's data, with a comma
      where the forward arrow has an underscore. */
  function BackData(page: int, section: int): string {
    "page_" + IntToString(page - 1) + "," + IntToString(section)
  }

  /** The section and page a `section…` or `page…` callback asks for: the
      section is the last character read as a number, the page is 1 for
      `section…` and otherwise the third character from the end. Only
      one-digit sections and pages survive this reading. */
  function ParseListData(data: string): (r: Result<(int, int)>)
    ensures r.Ok? ==> 0 <= r.value.0 < 10 && 0 <= r.value.1 < 10
    ensures r.Ok? ==> |data| >= 1 && r.value.0 == data[|data| - 1] as int - '0' as int
    ensures r.Ok? && !StartsWith(data, "section") ==>
              |data| >= 3 && r.value.1 == data[|data| - 3] as int - '0' as int
    ensures r.Ok? && StartsWith(data, "section") ==> r.value.1 == 1
    ensures r.Raise? ==> r.fault in {IndexError, ValueError}
  {
    var last :- PyIndex(data, -1);
    var section :- DigitValue(last);
    if StartsWith(data, "section") then Ok((section, 1))
    else
      var third :- PyIndex(data, -3);
      var page :- DigitValue(third);
      Ok((section, page))
  }

  /** The data of both arrows, and of a section button, read back as the
      section and page they were made for, as long as both have one
      digit. */
  lemma ListDataRoundTrip(page: int, section: int)
    requires 0 <= section < 10
    ensures 0 <= page + 1 < 10 ==> ParseListData(ForwardData(page, section)) == Ok((section, page + 1))
    ensures 0 <= page - 1 < 10 ==> ParseListData(BackData(page, section)) == Ok((section, page - 1))
    ensures ParseListData("section_" + IntToString(section)) == Ok((section, 1))
  {
    DigitRoundTrip(section);
    assert IntToString(section) == NatToString(section);
    if 0 <= page + 1 < 10 {
      DigitRoundTrip(page + 1);
      var d := ForwardData(page, section);
      assert d == "page_" + NatToString(page + 1) + "_" + NatToString(section);
      assert d[|d| - 1] == NatToString(section)[0];
      assert d[|d| - 3] == NatToString(page + 1)[0];
      assert !StartsWith(d, "section") by { assert d[0] == 'p'; }
    }
    if 0 <= page - 1 < 10 {
      DigitRoundTrip(page - 1);
      var d := BackData(page, section);
      assert d == "page_" + NatToString(page - 1) + "," + NatToString(section);
      assert d[|d| - 1] == NatToString(section)[0];
      assert d[|d| - 3] == NatToString(page - 1)[0];
      assert !StartsWith(d, "section") by { assert d[0] == 'p'; }
    }
    var d := "section_" + IntToString(section);
    assert d[..7] == "section";
  }

  /** Page ten and beyond is read as the last digit of its number: the
      forward arrow of page 9 leads to page 0, which lists nothing. */
  lemma PageTenReadAsZero()
    ensures ParseListData(ForwardData(9, 1)) == Ok((1, 0))
  {
    var d := ForwardData(9, 1);
    assert NatToString(10) == NatToString(1) + ['0'];
    assert NatToString(1) == ['1'];
    assert d == "page_10_1";
  }

  // ---------------------------------------------------------------------
  // The section list

  /** The themes of page `page`: indices `[(page - 1) * 5, page * 5)`,
      sliced as Python does. */
  function PageThemes(themes: seq<int>, page: int): (r: seq<int>)
    ensures |r| <= PerPage
    ensures page >= 1 ==>
              forall k :: 0 <= k < |r| ==> (page - 1) * PerPage + k < |themes| && r[k] == themes[(page - 1) * PerPage + k]
    ensures page >= 1 ==>
              |r| == (if |themes| >= page * PerPage then PerPage
                      else if |themes| >= (page - 1) * PerPage then |themes| - (page - 1) * PerPage
                      else 0)
  {
    PySlice(themes, (page - 1) * PerPage, page * PerPage)
  }

  /** One row per theme of the page, with its marker. */
  function ThemeRows(u: User, themes: seq<int>, section: int): (rows: Keyboard)
    ensures |rows| == |themes|
    ensures forall k :: 0 <= k < |themes| ==>
              rows[k] == [ThemeButton(MarkerOf(u, themes[k]), themes[k], section)]
  {
    if |themes| == 0 then []
    else [[ThemeButton(MarkerOf(u, themes[0]), themes[0], section)]] + ThemeRows(u, themes[1..], section)
  }

  /** The keyboard of page `page` of a section's themes: the page's themes,
      a forward arrow when themes follow, a back arrow from the second page
      on (on its own row on the last page, otherwise before the forward
      arrow), then "back to sections" and "delete". */
  function SectionKeyboard(u: User, themes: seq<int>, section: int, page: int): (kb: Keyboard)
    ensures var shown := PageThemes(themes, page);
            var more := |themes| > page * PerPage;
            var navRows := if more || page > 1 then 1 else 0;
            && |kb| == |shown| + navRows + 2
            && (forall k :: 0 <= k < |shown| ==> kb[k] == [ThemeButton(MarkerOf(u, shown[k]), shown[k], section)])
            && (more && page > 1 ==>
                  kb[|shown|] == [PageButton(false, BackData(page, section)), PageButton(true, ForwardData(page, section))])
            && (more && page <= 1 ==> kb[|shown|] == [PageButton(true, ForwardData(page, section))])
            && (!more && page > 1 ==> kb[|shown|] == [PageButton(false, BackData(page, section))])
            && kb[|kb| - 2] == [ToSections] && kb[|kb| - 1] == [DeleteButton]
  {
    var rows := ThemeRows(u, PageThemes(themes, page), section);
    var back := PageButton(false, BackData(page, section));
    var forward := PageButton(true, ForwardData(page, section));
    var nav :=
      if |themes| > page * PerPage then
        (if page > 1 then [[back, forward]] else [[forward]])
      else if page > 1 then [[back]]
      else [];
    rows + nav + [[ToSections], [DeleteButton]]
  }

  /** Every theme is listed exactly on page `i / 5 + 1`, at row `i % 5`. */
  lemma ThemeOnItsPage(u: User, themes: seq<int>, section: int, i: int)
    requires 0 <= i < |themes|
    ensures var kb := SectionKeyboard(u, themes, section, i / PerPage + 1);
            kb[i % PerPage] == [ThemeButton(MarkerOf(u, themes[i]), themes[i], section)]
  {
    var q, m := i / PerPage, i % PerPage;
    assert i == 5 * q + m && 0 <= m < 5;
    var page := q + 1;
    assert (page - 1) * PerPage == 5 * q && page * PerPage == 5 * q + 5;
    var shown := PageThemes(themes, page);
    assert m < |shown|;
    assert shown[m] == themes[i];
  }

  /** A forward arrow leads to a page that lists at least one theme, and
      the last page has none. */
  lemma ForwardLeadsToThemes(themes: seq<int>, page: int)
    requires page >= 1
    ensures |themes| > page * PerPage <==> |PageThemes(themes, page + 1)| >= 1
  {
  }

  /** `section_button_pressed`: read the section and page from the data,
      and list that page of the section's themes; a section with no entry
      in `bySection` has no themes. */
  function SectionButtonPressed(u: User, bySection: map<int, seq<int>>, data: string): (r: Result<Keyboard>)
    ensures ParseListData(data).Raise? ==> r == Raise(ParseListData(data).fault)
    ensures ParseListData(data).Ok? ==>
              var (section, page) := ParseListData(data).value;
              var themes := if section in bySection then bySection[section] else [];
              && r.Ok?
              && |r.value| >= 2 + |PageThemes(themes, page)|
              && (forall k :: 0 <= k < |PageThemes(themes, page)| ==>
                    r.value[k] == [ThemeButton(MarkerOf(u, PageThemes(themes, page)[k]), PageThemes(themes, page)[k], section)])
  {
    var (section, page) :- ParseListData(data);
    var themes := if section in bySection then bySection[section] else [];
    Ok(SectionKeyboard(u, themes, section, page))
  }

  // ---------------------------------------------------------------------
  // The keyboard under a chosen theme

  /** `"mark_theme_{theme}_{section}"`. */
  function MarkData(theme: int, section: int): string {
    "mark_theme_" + IntToString(theme) + "_" + IntToString(section)
  }

  /** `theme_chosen_markup` as written: for a theme not done in full, the
      "back to themes" link carries the theme's id where the section's
      belongs. */
  function ThemeChosenAsWritten(theme: int, section: int, u: User): (kb: Keyboard)
    ensures |kb| == 4 && |kb[2]| >= 1 && kb[2][0].SectionLink?
    ensures Some(theme) !in u.themesDoneFull ==> kb[2][0].data == "section_" + IntToString(theme)
  {
    [[StartQuiz(false, theme)], [StartQuiz(true, theme)],
     if Some(theme) !in u.themesDoneFull
     then [SectionLink("section_" + IntToString(theme), false), MarkTheme(MarkData(theme, section))]
     else [SectionLink("section_" + IntToString(section), true)],
     [DeleteButton]]
  }

  /** Theme 5 of section 1, not yet done: its "back to themes" link opens
      section 5 instead of section 1. */
  lemma BackLinkOpensWrongSection(u: User)
    requires Some(5) !in u.themesDoneFull
    ensures ParseListData(ThemeChosenAsWritten(5, 1, u)[2][0].data) == Ok((5, 1))
  {
    ListDataRoundTrip(1, 5);
  }

  /** `theme_chosen_markup` as evidently intended: the link leads back to
      the theme's own section in both cases. */
  function ThemeChosen(theme: int, section: int, u: User): (kb: Keyboard)
    ensures |kb| == 4 && |kb[2]| >= 1
    ensures kb[0] == [StartQuiz(false, theme)] && kb[1] == [StartQuiz(true, theme)] && kb[3] == [DeleteButton]
    ensures kb[2][0] == SectionLink("section_" + IntToString(section), Some(theme) in u.themesDoneFull)
    ensures Some(theme) !in u.themesDoneFull <==> MarkTheme(MarkData(theme, section)) in kb[2]
  {
    [[StartQuiz(false, theme)], [StartQuiz(true, theme)],
     if Some(theme) !in u.themesDoneFull
     then [SectionLink("section_" + IntToString(section), false), MarkTheme(MarkData(theme, section))]
     else [SectionLink("section_" + IntToString(section), true)],
     [DeleteButton]]
  }

  /** With the corrected keyboard the link opens page 1 of the theme's
      section. */
  lemma BackLinkOpensOwnSection(theme: int, section: int, u: User)
    requires 0 <= section < 10
    ensures ParseListData(ThemeChosen(theme, section, u)[2][0].data) == Ok((section, 1))
  {
    ListDataRoundTrip(1, section);
  }

  /** `mark_theme_as_done`: the theme is done in full and the query is
      answered that it was marked, then row 2 of the keyboard becomes a
      single link back to the section. The row is replaced in place, so a
      keyboard of fewer than three rows raises `IndexError` after the user
      was already updated and the answer already sent. */
  function MarkThemeDone(u: User, theme: int, section: string, kb: Keyboard)
    : (r: (User, seq<Effects.Effect>, Result<Keyboard>))
    ensures r.0 == UpdateThemesProgress(u, Some(theme), Some(true))
    ensures MarkerOf(r.0, theme) == Green
    ensures r.1 == [Effects.SendNotice(Effects.ThemeMarked)]
    ensures |kb| <= 2 ==> r.2 == Raise(IndexError)
    ensures |kb| > 2 ==>
              && r.2.Ok? && |r.2.value| == |kb|
              && r.2.value[2] == [SectionLink("section_" + section, true)]
              && (forall k :: 0 <= k < |kb| && k != 2 ==> r.2.value[k] == kb[k])
  {
    var u' := UpdateThemesProgress(u, Some(theme), Some(true));
    var answered := [Effects.SendNotice(Effects.ThemeMarked)];
    if |kb| <= 2 then (u', answered, Raise(IndexError))
    else (u', answered, Ok(kb[2 := [SectionLink("section_" + section, true)]]))
  }

  /** Marking a theme from its keyboard gives the keyboard the theme then
      has, once done in full. */
  lemma MarkThenShowAgree(u: User, theme: int, section: int)
    ensures var (u', _, kb') := MarkThemeDone(u, theme, IntToString(section), ThemeChosen(theme, section, u));
            kb' == Ok(ThemeChosen(theme, section, u'))
  {
    var kb := ThemeChosen(theme, section, u);
    var (u', _, kb') := MarkThemeDone(u, theme, IntToString(section), kb);
    assert Some(theme) in u'.themesDoneFull;
    assert kb'.value == kb[2 := [SectionLink("section_" + IntToString(section), true)]];
    assert kb'.value == ThemeChosen(theme, section, u');
  }
}
