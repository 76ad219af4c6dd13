/**
  The naming scheme of the Objaverse objects (custom_objects.py): an asset
  directory name such as `red_apple_0` carries the object type before its
  last underscore; the generated simulator class is `Objaverse` followed by
  the type in CamelCase, and its default instance name is `objaverse_` and
  the type.
*/
module CustomObjects {
  import opened Strings
  import ExportAsBddl

  /** `extract_object_type`: the `_`-separated fields without the last, joined by `_`. */
  function ExtractObjectType(objName: string): string {
    var fields := Split(objName, '_');
    Join("_", fields[..|fields| - 1])
  }

  /** The last `_`-separated field of a name (the asset's variant suffix). */
  function LastField(objName: string): string {
    var fields := Split(objName, '_');
    fields[|fields| - 1]
  }

  /** A name with an underscore is its type, an underscore and its last field, in that order. */
  lemma ExtractObjectTypeRoundTrip(objName: string)
    requires '_' in objName
    ensures ExtractObjectType(objName) + "_" + LastField(objName) == objName
    ensures '_' !in LastField(objName)
  {
    SplitLastField(objName, '_');
  }

  /** A name without an underscore has the empty type. */
  lemma ExtractObjectTypeWithoutUnderscore(objName: string)
    requires '_' !in objName
    ensures ExtractObjectType(objName) == ""
  {
    SplitNoSeparator(objName, '_');
  }

  /** Each field, capitalized. */
  function CapitalizeAll(words: seq<string>): (r: seq<string>)
    ensures |r| == |words|
    ensures forall i :: 0 <= i < |words| ==> r[i] == Capitalize(words[i])
  {
    seq(|words|, i requires 0 <= i < |words| => Capitalize(words[i]))
  }

  /** `to_camel_case`: every `_`-separated field capitalized, the fields concatenated. */
  function ToCamelCase(snake: string): string {
    Concat(CapitalizeAll(Split(snake, '_')))
  }

  /** Concatenating strings of the same lengths gives strings of the same length. */
  lemma {:induction false} ConcatSameLengths(a: seq<string>, b: seq<string>)
    requires |a| == |b| && forall i :: 0 <= i < |a| ==> |a[i]| == |b[i]|
    ensures |Concat(a)| == |Concat(b)|
  {
    if a != [] {
      ConcatSameLengths(a[1..], b[1..]);
    }
  }

  /** A character none of the pieces holds is not in their concatenation. */
  lemma {:induction false} ConcatWithout(parts: seq<string>, c: char)
    requires forall i :: 0 <= i < |parts| ==> c !in parts[i]
    ensures c !in Concat(parts)
  {
    if parts != [] {
      ConcatWithout(parts[1..], c);
      assert c !in parts[0];
    }
  }

  /** Capitalizing a word without underscores gives a word without underscores. */
  lemma CapitalizeWithoutUnderscore(w: string)
    requires '_' !in w
    ensures '_' !in Capitalize(w)
  {
    forall i | 0 <= i < |w|
      ensures Capitalize(w)[i] != '_'
    {
      CaseMappingKeepsUnderscore(w[i]);
    }
  }

  /** CamelCase has no underscores left. */
  lemma CamelCaseHasNoUnderscore(snake: string)
    ensures '_' !in ToCamelCase(snake)
  {
    var words := Split(snake, '_');
    var caps := CapitalizeAll(words);
    forall i | 0 <= i < |caps|
      ensures '_' !in caps[i]
    {
      CapitalizeWithoutUnderscore(words[i]);
    }
    ConcatWithout(caps, '_');
  }

  /** CamelCase is exactly one character shorter per underscore. */
  lemma CamelCaseLength(snake: string)
    ensures |ToCamelCase(snake)| == |snake| - Count(snake, '_')
  {
    var words := Split(snake, '_');
    ConcatSameLengths(CapitalizeAll(words), words);
    SplitSizes(snake, '_');
  }

  /** The name of the generated class: `Objaverse` and the CamelCase type. */
  function ClassName(objName: string): string {
    "Objaverse" + ToCamelCase(ExtractObjectType(objName))
  }

  /** The default name of an instance: `objaverse_` and the type. */
  function DefaultName(objName: string): string {
    "objaverse_" + ExtractObjectType(objName)
  }

  /** The class name is a `Objaverse`-prefixed identifier with no underscores. */
  lemma ClassNameShape(objName: string)
    ensures StartsWith(ClassName(objName), "Objaverse")
    ensures '_' !in ClassName(objName)[|"Objaverse"|..]
    ensures |ClassName(objName)| == 9 + |ExtractObjectType(objName)| - Count(ExtractObjectType(objName), '_')
  {
    var camel := ToCamelCase(ExtractObjectType(objName));
    StartsWithSpliced("Objaverse", camel);
    assert ClassName(objName)[9..] == camel;
    CamelCaseHasNoUnderscore(ExtractObjectType(objName));
    CamelCaseLength(ExtractObjectType(objName));
  }

  /**
    The default instance name is the object type the BDDL problem generator
    declares for the same type, whenever the type has no spaces.
  */
  lemma DefaultNameMatchesBddlType(objName: string)
    requires ' ' !in ExtractObjectType(objName)
    ensures DefaultName(objName) == ExportAsBddl.PrefixedName(ExtractObjectType(objName))
  {
    ExportAsBddl.NormalizeWithoutSpaces(ExtractObjectType(objName));
  }

  /** An asset name `a_b_c` of three underscore-free fields has the type `a_b`. */
  lemma ExtractThreeFields(a: string, b: string, c: string)
    requires '_' !in a && '_' !in b && '_' !in c
    ensures ExtractObjectType(a + "_" + b + "_" + c) == a + "_" + b
    ensures DefaultName(a + "_" + b + "_" + c) == "objaverse_" + a + "_" + b
  {
    SplitNoSeparator(c, '_');
    SplitField(b, '_', c);
    SplitField(a, '_', b + "_" + c);
    assert a + "_" + b + "_" + c == a + "_" + (b + "_" + c);
    var fields := Split(a + "_" + b + "_" + c, '_');
    assert fields == [a] + ([b] + [c]);
    assert fields[..2] == [a, b] && [a, b][1..] == [b];
    assert Join("_", [b]) == b;
    assert Join("_", [a, b]) == a + "_" + Join("_", [b]);
  }

  /** A type `a_b` of two underscore-free fields becomes the two fields capitalized and run together. */
  lemma CamelCaseTwoFields(a: string, b: string)
    requires '_' !in a && '_' !in b
    ensures ToCamelCase(a + "_" + b) == Capitalize(a) + Capitalize(b)
  {
    SplitNoSeparator(b, '_');
    SplitField(a, '_', b);
    assert Split(a + "_" + b, '_') == [a] + [b];
    var caps := CapitalizeAll(Split(a + "_" + b, '_'));
    assert caps == [Capitalize(a), Capitalize(b)];
    assert caps[1..] == [Capitalize(b)] && caps[1..][1..] == [];
    assert Concat([Capitalize(b)]) == Capitalize(b) + Concat([]);
  }

  /**
    The names generated for an asset `a_b_c` of three underscore-free fields
    (such as `red_apple_0`): the class `Objaverse` + `A` + `B` with each field
    capitalized (`ObjaverseRedApple`), the default name `objaverse_a_b`.
  */
  lemma ThreeFieldAssetNames(a: string, b: string, c: string)
    requires '_' !in a && '_' !in b && '_' !in c
    ensures ClassName(a + "_" + b + "_" + c) == "Objaverse" + Capitalize(a) + Capitalize(b)
    ensures DefaultName(a + "_" + b + "_" + c) == "objaverse_" + a + "_" + b
  {
    ExtractThreeFields(a, b, c);
    CamelCaseTwoFields(a, b);
  }
}
