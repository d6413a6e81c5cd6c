/**
 * The fixed tables of the macro: the canonical shelf order of the six realm
 * packs, the logical image keys and their template files, and the two string
 * mappings the backend applies to get from a pack name to a template
 * (macro.py:131-143, 238-239, 267, 524-531).
 */
module Catalog {
  import opened Wrappers

  /** The keys of MainWindow.PACK_COLORS and of PACK_FULL_NAMES, in dictionary order. */
  const PackShortNames: seq<string> := ["Dragon", "Sorcerer", "Pirate", "Demon", "Hunter", "Shinobi"]

  /** The values of MainWindow.PACK_COLORS, in the same order as PackShortNames. */
  const PackColors: seq<string> := ["#d9534f", "#6100ca", "#f0ad4e", "#00e53d", "#db2100", "#bcbcbc"]

  /** PACK_FULL_NAMES maps every short name to "<short> Realm Pack". */
  function FullName(short: string): (r: string)
    ensures |r| == |short| + 11 && r[..|short|] == short && r[|short|..] == " Realm Pack"
  {
    short + " Realm Pack"
  }

  /** The values of MainWindow.PACK_FULL_NAMES, in dictionary order: the canonical shelf order. */
  const PackFullNames: seq<string> := [
    FullName("Dragon"), FullName("Sorcerer"), FullName("Pirate"),
    FullName("Demon"), FullName("Hunter"), FullName("Shinobi")
  ]

  /** The image keys of the user-interface templates, in the order of image_files. */
  const UiKeys: seq<string> := ["SummonScreen", "NoStock", "XButton", "SummonButton", "SellButton"]

  /** The image keys of the pack templates, "<short>RealmPack" in shelf order (macro.py:137-142). */
  const PackKeys: seq<string> := ["DragonRealmPack", "SorcererRealmPack", "PirateRealmPack", "DemonRealmPack", "HunterRealmPack", "ShinobiRealmPack"]

  /** RobloxMacroBackend.image_files: every logical key maps to the file "<key>.png". */
  const ImageFiles: map<string, string> := map k | k in UiKeys + PackKeys :: k + ".png"

  /** Position of the first occurrence of x in s, or None (Python's list.index raising ValueError). */
  function IndexOf<T(==)>(s: seq<T>, x: T): (r: Option<nat>)
    ensures r.None? <==> x !in s
    ensures r.Some? ==> r.value < |s| && s[r.value] == x
    ensures r.Some? ==> forall j :: 0 <= j < r.value ==> s[j] != x
  {
    if |s| == 0 then None
    else if s[0] == x then Some(0)
    else match IndexOf(s[1..], x)
      case None => None
      case Some(i) => Some(i + 1)
  }

  /** pack_order.index(pack_name) in macro_loop: the canonical shelf position of a pack, if it is one. */
  function CanonicalPosition(name: string): (r: Option<nat>)
    ensures r.Some? <==> name in PackFullNames
    ensures r.Some? ==> r.value < |PackFullNames| && PackFullNames[r.value] == name
  {
    IndexOf(PackFullNames, name)
  }

  /** The sort key temp_pack_order.get(name, 99): the canonical position, or 99 for a name off the shelf. */
  function SortKey(name: string): (k: nat)
    ensures name in PackFullNames ==> k < |PackFullNames| && PackFullNames[k] == name
    ensures name !in PackFullNames ==> k == 99
  {
    match CanonicalPosition(name)
    case Some(i) => i
    case None => 99
  }

  /** The second letters of the canonical names tell them apart. */
  lemma SecondLetters()
    ensures |PackFullNames| == 6
    ensures forall i :: 0 <= i < 6 ==> |PackFullNames[i]| > 1 && PackFullNames[i][1] == "roieuh"[i]
  {
  }

  /** The canonical names are distinct, so every pack's sort key is its own shelf position. */
  lemma SortKeyOfCanonical(i: nat)
    requires i < |PackFullNames|
    ensures SortKey(PackFullNames[i]) == i
    ensures CanonicalPosition(PackFullNames[i]) == Some(i)
  {
    SecondLetters();
    var k := SortKey(PackFullNames[i]);
    assert PackFullNames[k][1] == PackFullNames[i][1];
  }

  /** pack_name.replace(" ", ""): the image key of a pack name (macro.py:267). */
  function ImageKey(name: string): (r: string)
    ensures |r| <= |name| && ' ' !in r
  {
    if |name| == 0 then ""
    else if name[0] == ' ' then ImageKey(name[1..])
    else [name[0]] + ImageKey(name[1..])
  }

  /** The image key keeps every character of the name but the spaces, and adds none. */
  lemma {:induction false} ImageKeyKeepsCharacters(name: string, c: char)
    ensures c in ImageKey(name) <==> c in name && c != ' '
  {
    if |name| > 0 {
      ImageKeyKeepsCharacters(name[1..], c);
      assert name == [name[0]] + name[1..];
    }
  }

  /** A name without spaces is its own image key. */
  lemma {:induction false} ImageKeyOfSpaceless(name: string)
    requires ' ' !in name
    ensures ImageKey(name) == name
  {
    if |name| > 0 {
      assert ' ' !in name[1..] by { assert forall c :: c in name[1..] ==> c in name; }
      ImageKeyOfSpaceless(name[1..]);
      assert name == [name[0]] + name[1..];
    }
  }

  /** Removing spaces distributes over concatenation. */
  lemma {:induction false} ImageKeyAppend(a: string, b: string)
    ensures ImageKey(a + b) == ImageKey(a) + ImageKey(b)
  {
    if |a| > 0 {
      assert (a + b)[1..] == a[1..] + b;
      ImageKeyAppend(a[1..], b);
    } else {
      assert a + b == b;
    }
  }

  /** Removing the spaces of x + " " + y joins the keys of x and y. */
  lemma ImageKeyJoin(x: string, sp: string, y: string)
    requires |sp| == 1 && sp[0] == ' '
    ensures ImageKey(x + sp + y) == ImageKey(x) + ImageKey(y)
  {
    ImageKeyAppend(x + sp, y);
    ImageKeyAppend(x, sp);
    assert sp[1..] == [];
    assert ImageKey(sp) == [];
  }

  /** Removing the spaces of "a b c" joins the three space-free words. */
  lemma ImageKeyOfWords(a: string, sp: string, b: string, c: string)
    requires ' ' !in a && ' ' !in b && ' ' !in c && |sp| == 1 && sp[0] == ' '
    ensures ImageKey(a + sp + b + sp + c) == a + b + c
  {
    ImageKeyJoin(a + sp + b, sp, c);
    ImageKeyJoin(a, sp, b);
    ImageKeyOfSpaceless(a);
    ImageKeyOfSpaceless(b);
    ImageKeyOfSpaceless(c);
  }

  /** The image key of "<short> Realm Pack" is "<short>RealmPack". */
  lemma FullNameKey(short: string)
    requires ' ' !in short
    ensures ImageKey(FullName(short)) == short + "RealmPack"
  {
    assert FullName(short) == short + " " + "Realm" + " " + "Pack";
    ImageKeyOfWords(short, " ", "Realm", "Pack");
  }

  /** The pack keys are "<short>RealmPack", and they are keys of image_files. */
  lemma PackKeyInFiles(i: nat)
    requires i < |PackKeys|
    ensures PackKeys[i] == PackShortNames[i] + "RealmPack"
    ensures PackKeys[i] in ImageFiles
  {
    assert PackKeys[i] in UiKeys + PackKeys;
  }

  /** The full name of a shelf pack has its pack key as image key. */
  lemma FullNameHasPackKey(i: nat)
    requires i < |PackFullNames|
    ensures ImageKey(PackFullNames[i]) == PackShortNames[i] + "RealmPack"
  {
    assert PackFullNames[i] == FullName(PackShortNames[i]);
    FullNameKey(PackShortNames[i]);
  }

  /**
   * Every shelf pack has a template: search_and_click_pack turns its name into
   * a key of image_files (macro.py:267-273).
   */
  lemma PackImageKey(i: nat)
    requires i < |PackFullNames|
    ensures ImageKey(PackFullNames[i]) == PackKeys[i]
    ensures ImageKey(PackFullNames[i]) in ImageFiles
  {
    FullNameHasPackKey(i);
    PackKeyInFiles(i);
  }

  /** A pack name is a shelf pack exactly when it is one of the full names; then its key resolves. */
  lemma CanonicalNamesHaveTemplates(name: string)
    requires name in PackFullNames
    ensures ImageKey(name) in ImageFiles
  {
    var i :| 0 <= i < |PackFullNames| && PackFullNames[i] == name;
    PackImageKey(i);
  }

  /** No short name is a key of image_files. */
  lemma ShortNameNotAKey(i: nat)
    requires i < |PackShortNames|
    ensures PackShortNames[i] !in ImageFiles
  {
    assert forall k :: k in UiKeys + PackKeys ==> |k| != |PackShortNames[i]| || k[0] != PackShortNames[i][0];
  }

  /** A short name has no spaces, so it is its own image key. */
  lemma ShortNameKey(i: nat)
    requires i < |PackShortNames|
    ensures ImageKey(PackShortNames[i]) == PackShortNames[i]
  {
    ImageKeyOfSpaceless(PackShortNames[i]);
  }

  /** No short pack name (a PACK_COLORS key) is an image key: a search for one has no template. */
  lemma ShortNameHasNoTemplate(i: nat)
    requires i < |PackShortNames|
    ensures ImageKey(PackShortNames[i]) !in ImageFiles
  {
    ShortNameKey(i);
    ShortNameNotAKey(i);
  }

  /** Position of the last '.' in s, if there is one. */
  function LastDot(s: string): (r: Option<nat>)
    ensures r.None? <==> '.' !in s
    ensures r.Some? ==> r.value < |s| && s[r.value] == '.' && '.' !in s[r.value + 1..]
  {
    if |s| == 0 then None
    else if s[|s| - 1] == '.' then Some(|s| - 1)
    else
      var r := LastDot(s[..|s| - 1]);
      assert s[..|s| - 1] + [s[|s| - 1]] == s;
      r
  }

  /**
   * os.path.splitext(filename)[0] for a name without directory separators:
   * everything before the last '.', unless only dots precede that '.'
   * (a leading-dot name such as ".png" has no extension).
   */
  function Stem(filename: string): (root: string)
    ensures |root| <= |filename| && root == filename[..|root|]
  {
    match LastDot(filename)
    case None => filename
    case Some(d) => if exists j :: 0 <= j < d && filename[j] != '.' then filename[..d] else filename
  }

  /**
   * Stem is splitext's root: an extension it drops starts at the last '.'
   * and follows a character that is no '.'; a name it keeps whole has no
   * '.', or only dots before its last one.
   */
  lemma StemIsSplitextRoot(filename: string)
    ensures var root := Stem(filename);
            |root| < |filename| ==>
              && filename[|root|] == '.' && '.' !in filename[|root| + 1..]
              && exists j :: 0 <= j < |root| && filename[j] != '.'
    ensures Stem(filename) == filename ==>
              forall d :: 0 <= d < |filename| && filename[d] == '.' && '.' !in filename[d + 1..] ==>
                forall j :: 0 <= j < d ==> filename[j] == '.'
  {
    match LastDot(filename)
    case None =>
    case Some(last) =>
      forall d | 0 <= d < |filename| && filename[d] == '.' && '.' !in filename[d + 1..]
        ensures d == last
      {
      }
  }

  /** Removing the extension from key + ".png" gives back the key, for a dot-free non-empty key. */
  lemma {:induction false} StemOfPng(key: string)
    requires '.' !in key && key != []
    ensures Stem(key + ".png") == key
  {
    var f := key + ".png";
    assert f[|key| + 1..] == "png";
    assert f[|key|] == '.';
    assert f[..|key|] == key;
    assert LastDot(f) == Some(|key|);
    assert key[0] != '.' && f[0] == key[0];
  }

  /** The image keys contain no '.', so each file name has exactly one extension. */
  lemma ImageKeyIsDotFree(j: nat)
    requires j < |UiKeys + PackKeys|
    ensures '.' !in (UiKeys + PackKeys)[j] && (UiKeys + PackKeys)[j] != []
  {
    if j >= |UiKeys| {
      PackKeyInFiles(j - |UiKeys|);
      assert '.' !in PackShortNames[j - |UiKeys|] && '.' !in "RealmPack";
    }
  }

  /**
   * find_image_in_region recovers the template key from the file name it is
   * given: splitext of every image file is its own key (macro.py:131-143, 238-239).
   */
  lemma ImageFileStem(k: string)
    requires k in ImageFiles
    ensures Stem(ImageFiles[k]) == k
  {
    var j :| 0 <= j < |UiKeys + PackKeys| && (UiKeys + PackKeys)[j] == k;
    ImageKeyIsDotFree(j);
    StemOfPng(k);
  }
}
