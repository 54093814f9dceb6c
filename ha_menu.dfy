/** Title composition of the Home Assistant menu-bar submenus. */
module HAMenu {
  import opened Wrappers
  import opened Strings
  import opened Sequences

  /** The parts as `join` prints them: an undefined element prints as nothing. */
  function Printed(parts: seq<Option<string>>): (r: seq<string>)
    ensures |r| == |parts|
    ensures forall i :: 0 <= i < |parts| ==> r[i] == parts[i].GetOr("")
  {
    seq(|parts|, i requires 0 <= i < |parts| => parts[i].GetOr(""))
  }

  /** `joinNonEmpty`: nothing for a missing or empty list, else the parts joined by the separator ("," when undefined). */
  function JoinNonEmpty(parts: Option<seq<Option<string>>>, separator: Option<string>): (r: Option<string>)
    ensures r.None? <==> parts.None? || |parts.value| == 0
    ensures r.Some? ==> r.value == Join(Printed(parts.value), separator.GetOr(","))
  {
    if parts.None? || |parts.value| <= 0 then None
    else Some(Join(Printed(parts.value), separator.GetOr(",")))
  }

  /** `filter((e) => e)` on optional strings: drops undefined and empty entries. */
  function FilterTruthy(xs: seq<Option<string>>): (r: seq<Option<string>>)
    ensures forall i :: 0 <= i < |r| ==> r[i].Some? && r[i].value != ""
    ensures |r| <= |xs|
    decreases |xs|
  {
    if |xs| == 0 then []
    else (if xs[0].Some? && xs[0].value != "" then [xs[0]] else []) + FilterTruthy(xs[1..])
  }

  /** The filter keeps every truthy part, in the order of the input. */
  lemma {:induction false} FilterTruthyKeepsTruthy(xs: seq<Option<string>>)
    ensures Subsequence(FilterTruthy(xs), xs)
    ensures forall x :: x in xs && x.Some? && x.value != "" ==> x in FilterTruthy(xs)
    decreases |xs|
  {
    if |xs| > 0 {
      FilterTruthyKeepsTruthy(xs[1..]);
      var rest := FilterTruthy(xs[1..]);
      assert forall x :: x in xs ==> x == xs[0] || x in xs[1..];
      if xs[0].Some? && xs[0].value != "" {
        assert ([xs[0]] + rest)[1..] == rest;
      } else {
        assert FilterTruthy(xs) == rest;
        SubsequenceDropHead(rest, xs);
      }
    }
  }

  /** The separator: the given one when non-empty, else "|". */
  function Separator(separator: Option<string>): (sep: string)
    ensures sep != ""
    ensures separator.Some? && separator.value != "" ==> sep == separator.value
  {
    if separator.Some? && |separator.value| > 0 then separator.value else "|"
  }

  /** The title of `MenuBarSubmenu`. */
  function SubmenuTitle(title: string, subtitle: Option<string>, separator: Option<string>): (r: string)
  {
    var sep := Separator(separator);
    JoinNonEmpty(Some(FilterTruthy([Some(title), Some(sep), subtitle])), Some(" ")).GetOr("")
  }

  /** `FilterTruthy` unfolded once. */
  lemma FilterTruthyCons(x: Option<string>, xs: seq<Option<string>>)
    ensures FilterTruthy([x] + xs) == (if x.Some? && x.value != "" then [x] else []) + FilterTruthy(xs)
  {
    assert ([x] + xs)[1..] == xs;
  }

  /** The separator and subtitle part of the title. */
  lemma SeparatorAndSubtitle(sep: string, subtitle: Option<string>)
    requires sep != ""
    ensures |FilterTruthy([Some(sep), subtitle])| >= 1
    ensures Join(Printed(FilterTruthy([Some(sep), subtitle])), " ") ==
      if subtitle.Some? && subtitle.value != "" then sep + " " + subtitle.value else sep
  {
    var tail: seq<Option<string>> := if subtitle.Some? && subtitle.value != "" then [subtitle] else [];
    FilterTruthyCons(subtitle, []);
    assert [subtitle] == [subtitle] + [];
    assert FilterTruthy([subtitle]) == tail;
    FilterTruthyCons(Some(sep), [subtitle]);
    assert [Some(sep), subtitle] == [Some(sep)] + [subtitle];
    var kept := FilterTruthy([Some(sep), subtitle]);
    assert kept == [Some(sep)] + tail;
    if subtitle.Some? && subtitle.value != "" {
      assert Printed(kept) == [sep] + [subtitle.value];
      JoinCons(sep, [subtitle.value], " ");
      JoinSingleton(subtitle.value, " ");
    } else {
      assert Printed(kept) == [sep];
    }
  }

  /** `SubmenuTitle` is the join of the printed truthy parts: title (when non-empty), then the separator part. */
  lemma SubmenuTitleJoin(title: string, subtitle: Option<string>, separator: Option<string>)
    ensures var rest := Printed(FilterTruthy([Some(Separator(separator)), subtitle]));
      SubmenuTitle(title, subtitle, separator) ==
        if title == "" then Join(rest, " ") else title + " " + Join(rest, " ")
  {
    var sep := Separator(separator);
    var rest := FilterTruthy([Some(sep), subtitle]);
    SeparatorAndSubtitle(sep, subtitle);
    FilterTruthyCons(Some(title), [Some(sep), subtitle]);
    assert [Some(title), Some(sep), subtitle] == [Some(title)] + [Some(sep), subtitle];
    var kept := FilterTruthy([Some(title), Some(sep), subtitle]);
    assert SubmenuTitle(title, subtitle, separator) == Join(Printed(kept), " ");
    if title == "" {
      assert kept == rest;
    } else {
      assert kept == [Some(title)] + rest;
      assert Printed(kept) == [title] + Printed(rest);
      JoinCons(title, Printed(rest), " ");
    }
  }

  /**
   * The composed title: the non-empty parts of title, separator and subtitle with
   * single spaces between them, so a missing subtitle leaves "title |".
   */
  lemma SubmenuTitleLayout(title: string, subtitle: Option<string>, separator: Option<string>)
    ensures var sep := Separator(separator);
      var head := if title == "" then sep else title + " " + sep;
      SubmenuTitle(title, subtitle, separator) ==
        if subtitle.Some? && subtitle.value != "" then head + " " + subtitle.value else head
  {
    var sep := Separator(separator);
    SubmenuTitleJoin(title, subtitle, separator);
    SeparatorAndSubtitle(sep, subtitle);
    if title != "" && subtitle.Some? && subtitle.value != "" {
      assert title + " " + (sep + " " + subtitle.value) == (title + " " + sep) + " " + subtitle.value;
    }
  }

  /** The composed title is never empty and always contains the separator. */
  lemma SubmenuTitleHasSeparator(title: string, subtitle: Option<string>, separator: Option<string>)
    ensures SubmenuTitle(title, subtitle, separator) != ""
    ensures Includes(SubmenuTitle(title, subtitle, separator), Separator(separator))
  {
    SubmenuTitleLayout(title, subtitle, separator);
    var sep := Separator(separator);
    var r := SubmenuTitle(title, subtitle, separator);
    var before := if title == "" then "" else title + " ";
    var after := if subtitle.Some? && subtitle.value != "" then " " + subtitle.value else "";
    assert r == before + sep + after;
    assert r[|before|..|before| + |sep|] == sep;
    assert OccursAt(r, sep, |before|);
  }
}
