/**
 * The playlist selection screen (src/components/PlaylistSelector.js and the identical toggle in
 * src/App.jsx): toggling an id in the ordered selection, and what the rows and the proceed
 * button show for a selection.
 */
module Selector {
  import opened Text
  import Spotify

  predicate NoDuplicates(s: seq<string>)
  {
    forall i, j :: 0 <= i < j < |s| ==> s[i] != s[j]
  }

  /** `prev.filter(id => id !== x)`. */
  function Without(s: seq<string>, x: string): (r: seq<string>)
    ensures x !in r
    ensures forall y :: y != x ==> (y in r <==> y in s)
    ensures x !in s ==> r == s
    decreases |s|
  {
    if |s| == 0 then []
    else if s[0] == x then Without(s[1..], x)
    else [s[0]] + Without(s[1..], x)
  }

  /** In a list without duplicates, filtering an element out removes exactly its one position. */
  lemma {:induction false} WithoutAt(s: seq<string>, i: nat)
    requires NoDuplicates(s) && i < |s|
    ensures Without(s, s[i]) == s[..i] + s[i + 1..]
    decreases |s|
  {
    if i == 0 {
      assert s[i] !in s[1..];
      assert s[..0] + s[1..] == s[1..];
    } else {
      WithoutAt(s[1..], i - 1);
      assert s[1..][i - 1] == s[i];
      assert [s[0]] + (s[1..][..i - 1] + s[1..][i..]) == s[..i] + s[i + 1..];
    }
  }

  /** `handlePlaylistSelect`: a selected id is taken out, an unselected one is appended. */
  function Toggle(selected: seq<string>, id: string): (r: seq<string>)
    ensures id in r <==> id !in selected
    ensures forall y :: y != id ==> (y in r <==> y in selected)
    ensures id !in selected ==> r == selected + [id]
  {
    if id in selected then Without(selected, id) else selected + [id]
  }

  /** Taking an id out keeps every other id in its order. */
  lemma ToggleRemovesAt(selected: seq<string>, i: nat)
    requires NoDuplicates(selected) && i < |selected|
    ensures Toggle(selected, selected[i]) == selected[..i] + selected[i + 1..]
  {
    WithoutAt(selected, i);
  }

  /** Toggling never introduces a duplicate. */
  lemma ToggleKeepsNoDuplicates(selected: seq<string>, id: string)
    requires NoDuplicates(selected)
    ensures NoDuplicates(Toggle(selected, id))
  {
    if id in selected {
      var i :| 0 <= i < |selected| && selected[i] == id;
      ToggleRemovesAt(selected, i);
      var r := selected[..i] + selected[i + 1..];
      forall a, b | 0 <= a < b < |r| ensures r[a] != r[b] {
        var a' := if a < i then a else a + 1;
        var b' := if b < i then b else b + 1;
        assert r[a] == selected[a'] && r[b] == selected[b'];
      }
    }
  }

  /** Toggling an unselected id twice gives the selection back. */
  lemma ToggleTwiceRestores(selected: seq<string>, id: string)
    requires id !in selected
    ensures Toggle(Toggle(selected, id), id) == selected
  {
    WithoutLast(selected, id);
  }

  lemma {:induction false} WithoutLast(s: seq<string>, x: string)
    requires x !in s
    ensures Without(s + [x], x) == s
    decreases |s|
  {
    if |s| == 0 {
      assert ([] + [x])[1..] == [];
    } else {
      assert (s + [x])[1..] == s[1..] + [x];
      WithoutLast(s[1..], x);
      assert [s[0]] + s[1..] == s;
    }
  }

  /** Toggling a selected id twice does not restore the order: the id moves to the end. */
  lemma ToggleTwiceMovesToEnd(selected: seq<string>, i: nat)
    requires NoDuplicates(selected) && i < |selected|
    ensures Toggle(Toggle(selected, selected[i]), selected[i]) == selected[..i] + selected[i + 1..] + [selected[i]]
  {
    ToggleRemovesAt(selected, i);
  }

  // ---------------------------------------------------------------- what the screen shows

  datatype Variant = Primary | Secondary

  datatype ProceedButton = ProceedButton(disabled: bool, variant: Variant, caption: string)

  /** `"s"` after a count that is not one. */
  function Plural(n: nat): string
  {
    if n != 1 then "s" else ""
  }

  /** The transfer button under the list: its enabled state, its style and its text. */
  function Proceed(selected: seq<string>): (b: ProceedButton)
    ensures b.disabled <==> |selected| == 0
    ensures b.variant == Primary <==> |selected| > 0
    ensures |b.caption| > 9 && b.caption[..9] == "Transfer "
    ensures var digits := NatToString(|selected|);
            && 9 + |digits| <= |b.caption|
            && b.caption[9..9 + |digits|] == digits
            && b.caption[9 + |digits|..] == " Playlist" + Plural(|selected|)
    ensures b.caption[|b.caption| - 1] == 's' <==> |selected| != 1
  {
    var n := |selected|;
    var caption := "Transfer " + NatToString(n) + " Playlist" + Plural(n);
    assert caption == "Transfer " + NatToString(n) + (" Playlist" + Plural(n));
    ProceedButton(n == 0, if n > 0 then Primary else Secondary, caption)
  }

  /** The button text tells the count back: different selection sizes give different labels. */
  lemma ProceedLabelIdentifiesCount(a: seq<string>, b: seq<string>)
    requires Proceed(a).caption == Proceed(b).caption
    ensures |a| == |b|
  {
    var m, n := |a|, |b|;
    var la, lb := Proceed(a).caption, Proceed(b).caption;
    var da, db := NatToString(m), NatToString(n);
    if |da| == |db| {
      assert la[9..9 + |da|] == da && lb[9..9 + |db|] == db;
      NatToStringInjective(m, n);
    }
  }

  datatype Row = Row(highlighted: bool, checked: bool, trackCount: string)

  /** One playlist row: highlight and checkbox follow the selection; the track count is pluralised. */
  function PlaylistRow(selected: seq<string>, p: Spotify.Playlist): (r: Row)
    ensures r.highlighted <==> p.id in selected
    ensures r.checked <==> p.id in selected
    ensures var digits := NatToString(p.trackTotal);
            && 1 + |digits| <= |r.trackCount|
            && r.trackCount[0] == '('
            && r.trackCount[1..1 + |digits|] == digits
            && r.trackCount[1 + |digits|..] == " track" + Plural(p.trackTotal) + ")"
    ensures |r.trackCount| > 6 && r.trackCount[|r.trackCount| - 2] == 's' <==> p.trackTotal != 1
  {
    var inSelection := p.id in selected;
    Row(inSelection, inSelection, "(" + NatToString(p.trackTotal) + " track" + Plural(p.trackTotal) + ")")
  }

  /** Toggling a row's playlist flips that row and no row of another playlist. */
  lemma ToggleFlipsOnlyThatRow(selected: seq<string>, p: Spotify.Playlist, q: Spotify.Playlist)
    ensures PlaylistRow(Toggle(selected, p.id), p).checked == !PlaylistRow(selected, p).checked
    ensures q.id != p.id ==> PlaylistRow(Toggle(selected, p.id), q) == PlaylistRow(selected, q)
  {
  }
}
