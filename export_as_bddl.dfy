/**
  The BDDL problem generator of misc/export_as_bddl.py: given the names of
  the objects on the floor and the name of the object to pick up, it builds
  the text of a LIBERO floor-manipulation problem. Object names become BDDL
  identifiers by turning spaces into underscores; every object `N` is
  declared as the instance `objaverse_N_1` of the type `objaverse_N` and
  placed in the target-object region, and the goal is to grasp the target's
  instance.

  Writing the text to `bddl_file_name` is not modelled; the text itself is.
*/
module ExportAsBddl {
  import opened Strings

  /** `_normalize_object_name`: every space becomes an underscore. */
  function NormalizeObjectName(name: string): (r: string)
    ensures |r| == |name|
    ensures ' ' !in r
    ensures forall i :: 0 <= i < |name| && name[i] != ' ' ==> r[i] == name[i]
    ensures forall i :: 0 <= i < |name| && name[i] == ' ' ==> r[i] == '_'
  {
    ReplaceChar(name, ' ', '_')
  }

  /** Normalizing an already normalized name changes nothing. */
  lemma NormalizeIdempotent(name: string)
    ensures NormalizeObjectName(NormalizeObjectName(name)) == NormalizeObjectName(name)
  {
    var once := NormalizeObjectName(name);
    var twice := NormalizeObjectName(once);
    assert forall i :: 0 <= i < |once| ==> once[i] != ' ';
    assert forall i :: 0 <= i < |once| ==> twice[i] == once[i];
  }

  /** A name without spaces is its own normal form. */
  lemma NormalizeWithoutSpaces(name: string)
    requires ' ' !in name
    ensures NormalizeObjectName(name) == name
  {
    var r := NormalizeObjectName(name);
    assert forall i :: 0 <= i < |name| ==> name[i] != ' ';
    assert forall i :: 0 <= i < |name| ==> r[i] == name[i];
  }

  /** Normalizing neither adds nor removes line breaks. */
  lemma NormalizeKeepsNewlines(name: string)
    ensures '\n' in NormalizeObjectName(name) <==> '\n' in name
  {
    var r := NormalizeObjectName(name);
    if '\n' in name {
      var i :| 0 <= i < |name| && name[i] == '\n';
      assert r[i] == '\n';
    }
    if '\n' in r {
      var i :| 0 <= i < |r| && r[i] == '\n';
      assert name[i] == '\n';
    }
  }

  /** `_create_bddl_regions`: the two fixed floor regions, bin and target-object. */
  const RegionsSection: string :=
    "(:regions\n"
    + "        (bin_region\n"
    + "            (:target floor)\n"
    + "            (:ranges (\n"
    + "                (-0.01 0.25 0.01 0.27)\n"
    + "                )\n"
    + "            )\n"
    + "        )\n"
    + "        (target_object_region\n"
    + "            (:target floor)\n"
    + "            (:ranges (\n"
    + "                (-0.145 -0.265 -0.095 -0.215)\n"
    + "                )\n"
    + "            )\n"
    + "        )\n"
    + "    )"

  /** The BDDL object type of a name: `objaverse_` and the normalized name. */
  function PrefixedName(name: string): string {
    "objaverse_" + NormalizeObjectName(name)
  }

  /** The one instance of that type in the problem. */
  function InstanceName(name: string): string {
    PrefixedName(name) + "_1"
  }

  /** The declaration line of one object. */
  function ObjectEntry(name: string): string {
    "    " + InstanceName(name) + " - " + PrefixedName(name)
  }

  /** The initial-placement line of one object. */
  function InitEntry(name: string): string {
    "    (On " + InstanceName(name) + " floor_target_object_region)"
  }

  /** One declaration line per name, in the order of the names. */
  function ObjectEntries(names: seq<string>): (r: seq<string>)
    ensures |r| == |names|
    ensures forall i :: 0 <= i < |names| ==> r[i] == ObjectEntry(names[i])
  {
    seq(|names|, i requires 0 <= i < |names| => ObjectEntry(names[i]))
  }

  /** One placement line per name, in the order of the names. */
  function InitEntries(names: seq<string>): (r: seq<string>)
    ensures |r| == |names|
    ensures forall i :: 0 <= i < |names| ==> r[i] == InitEntry(names[i])
  {
    seq(|names|, i requires 0 <= i < |names| => InitEntry(names[i]))
  }

  /** The wrapping both list sections share: the header, the lines joined by line breaks, and the closing line. */
  function Section(header: string, lines: seq<string>): string {
    header + "\n" + Join("\n", lines) + "\n    )"
  }

  const ClosingLine := "    )"

  function ObjectsSection(names: seq<string>): string {
    Section("(:objects", ObjectEntries(names))
  }

  function InitSection(names: seq<string>): string {
    Section("(:init", InitEntries(names))
  }

  /** `_create_bddl_objects`: the declaration lines are collected in a loop, then wrapped. */
  method CreateBddlObjects(names: seq<string>) returns (section: string)
    ensures section == ObjectsSection(names)
  {
    var entries: seq<string> := [];
    for i := 0 to |names|
      invariant entries == ObjectEntries(names[..i])
    {
      entries := entries + [ObjectEntry(names[i])];
    }
    assert names[..|names|] == names;
    section := "(:objects\n" + Join("\n", entries) + "\n    )";
  }

  /** `_create_bddl_init_state`: the placement lines are collected in a loop, then wrapped. */
  method CreateBddlInitState(names: seq<string>) returns (section: string)
    ensures section == InitSection(names)
  {
    var entries: seq<string> := [];
    for i := 0 to |names|
      invariant entries == InitEntries(names[..i])
    {
      entries := entries + [InitEntry(names[i])];
    }
    assert names[..|names|] == names;
    section := "(:init\n" + Join("\n", entries) + "\n    )";
  }

  /** The first three lines of the problem; the `:language` line names the target as it was given. */
  function Preamble(target: string): string {
    ProblemHeader + LanguageLine(target)
  }

  const ProblemHeader := "(define (problem LIBERO_Floor_Manipulation)\n    (:domain robosuite)\n"

  /** The natural-language instruction of the problem, with the target name as given. */
  function Instruction(target: string): string {
    "pick up " + target
  }

  function Language(target: string): string {
    "(:language " + Instruction(target) + ")"
  }

  function LanguageLine(target: string): string {
    "    " + Language(target) + "\n"
  }

  function FixturesSection(): string {
    "    (:fixtures\n        floor - floor\n    )\n\n"
  }

  function ObjOfInterest(target: string): string {
    "(:obj_of_interest\n        " + InstanceName(target) + "\n    )"
  }

  /** The goal's one predicate: the target's instance is grasped. */
  function Grasped(target: string): string {
    "(And (Grasped " + InstanceName(target) + "))"
  }

  function Goal(target: string): string {
    "(:goal\n        " + Grasped(target) + "\n    )"
  }

  /** A section as it stands in the problem: indented by four spaces and followed by a blank line. */
  function Indented(section: string): string {
    "    " + section + "\n\n"
  }

  /** The closing lines: the goal section and the parenthesis that ends the problem. */
  function GoalTail(target: string): string {
    "    " + Goal(target) + "\n)\n"
  }

  /** The object of interest, the initial placement and the goal. */
  function AfterObjects(names: seq<string>, target: string): string {
    Indented(ObjOfInterest(target)) + (Indented(InitSection(names)) + GoalTail(target))
  }

  /** Everything after the three preamble lines. */
  function Body(names: seq<string>, target: string): string {
    Indented(RegionsSection) + (FixturesSection() + Indented(ObjectsSection(names)) + AfterObjects(names, target))
  }

  /** The whole problem text of `export_as_bddl_file`. */
  function BddlContent(names: seq<string>, target: string): string {
    Preamble(target) + Body(names, target)
  }

  /** `export_as_bddl_file`: the sections are generated and assembled, and the text is returned. */
  method ExportAsBddlFile(names: seq<string>, target: string) returns (content: string)
    ensures content == BddlContent(names, target)
  {
    var regions := RegionsSection;
    var objects := CreateBddlObjects(names);
    var init := CreateBddlInitState(names);
    content := Preamble(target)
      + (Indented(regions)
         + (FixturesSection() + Indented(objects)
            + (Indented(ObjOfInterest(target)) + (Indented(init) + GoalTail(target)))));
  }

  // ---------------------------------------------------------------------------
  // Properties of the generated text
  // ---------------------------------------------------------------------------

  /** The lines generated for a name without line breaks are single lines. */
  lemma EntriesAreSingleLines(name: string)
    requires '\n' !in name
    ensures '\n' !in ObjectEntry(name) && '\n' !in InitEntry(name)
  {
    NormalizeKeepsNewlines(name);
    var n := NormalizeObjectName(name);
    NotInConcat("objaverse_", n, '\n');
    NotInConcat(PrefixedName(name), "_1", '\n');
    NotInConcat("    ", InstanceName(name), '\n');
    NotInConcat("    " + InstanceName(name), " - ", '\n');
    NotInConcat("    " + InstanceName(name) + " - ", PrefixedName(name), '\n');
    NotInConcat("    (On ", InstanceName(name), '\n');
    NotInConcat("    (On " + InstanceName(name), " floor_target_object_region)", '\n');
  }

  /**
    A section of at least one single line reads, line by line, as its header,
    the lines in their order, and the closing line.
  */
  lemma SectionLines(header: string, lines: seq<string>)
    requires '\n' !in header
    requires |lines| >= 1 && forall i :: 0 <= i < |lines| ==> '\n' !in lines[i]
    ensures Split(Section(header, lines), '\n') == [header] + lines + [ClosingLine]
  {
    var all := [header] + lines + [ClosingLine];
    JoinSnoc("\n", lines, ClosingLine);
    assert all[1..] == lines + [ClosingLine];
    assert Join("\n", all) == header + "\n" + Join("\n", lines + [ClosingLine]);
    assert Join("\n", all) == Section(header, lines);
    forall i | 0 <= i < |all|
      ensures '\n' !in all[i]
    {
      if 1 <= i <= |lines| {
        assert all[i] == lines[i - 1];
      }
    }
    SplitJoin(all, '\n');
  }

  /** With no names at all, a section is its header, one empty line and the closing line. */
  lemma EmptySectionLines(header: string)
    requires '\n' !in header
    ensures Split(Section(header, []), '\n') == [header, "", ClosingLine]
  {
    var all := [header, "", ClosingLine];
    assert all[1..] == ["", ClosingLine] && all[1..][1..] == [ClosingLine];
    assert Join("\n", [ClosingLine]) == ClosingLine;
    assert Join("\n", all) == header + "\n" + ("" + "\n" + ClosingLine);
    assert Join("\n", all) == Section(header, []);
    SplitJoin(all, '\n');
  }

  /** The objects section declares `objaverse_N_1 - objaverse_N` for each name `N`, one per line and in order. */
  lemma ObjectsSectionLines(names: seq<string>)
    requires |names| >= 1 && forall i :: 0 <= i < |names| ==> '\n' !in names[i]
    ensures Split(ObjectsSection(names), '\n') == ["(:objects"] + ObjectEntries(names) + [ClosingLine]
  {
    forall i | 0 <= i < |names|
      ensures '\n' !in ObjectEntries(names)[i]
    {
      EntriesAreSingleLines(names[i]);
    }
    SectionLines("(:objects", ObjectEntries(names));
  }

  /** The init section places `objaverse_N_1` on the target-object region for each name `N`, one per line and in order. */
  lemma InitSectionLines(names: seq<string>)
    requires |names| >= 1 && forall i :: 0 <= i < |names| ==> '\n' !in names[i]
    ensures Split(InitSection(names), '\n') == ["(:init"] + InitEntries(names) + [ClosingLine]
  {
    forall i | 0 <= i < |names|
      ensures '\n' !in InitEntries(names)[i]
    {
      EntriesAreSingleLines(names[i]);
    }
    SectionLines("(:init", InitEntries(names));
  }

  /** The target's instance is the object of interest and the object the goal asks to grasp. */
  lemma TargetInstanceInObjOfInterestAndGoal(names: seq<string>, target: string)
    ensures Contains(BddlContent(names, target), "(:obj_of_interest\n        " + InstanceName(target) + "\n    )")
    ensures Contains(BddlContent(names, target), "(And (Grasped " + InstanceName(target) + "))")
  {
    var interest := ObjOfInterest(target);
    var grasped := Grasped(target);
    var middle := FixturesSection() + Indented(ObjectsSection(names));
    ContainsSpliced("    ", interest, "\n\n");
    ContainsBefore(Indented(interest), Indented(InitSection(names)) + GoalTail(target), interest);
    ContainsAfter(middle, AfterObjects(names, target), interest);
    ContainsAfter(Indented(RegionsSection), middle + AfterObjects(names, target), interest);
    ContainsAfter(Preamble(target), Body(names, target), interest);
    ContainsSpliced("(:goal\n        ", grasped, "\n    )");
    ContainsSpliced("    ", Goal(target), "\n)\n");
    ContainsWithin("    ", Goal(target), "\n)\n", grasped);
    ContainsAfter(Indented(InitSection(names)), GoalTail(target), grasped);
    ContainsAfter(Indented(interest), Indented(InitSection(names)) + GoalTail(target), grasped);
    ContainsAfter(middle, AfterObjects(names, target), grasped);
    ContainsAfter(Indented(RegionsSection), middle + AfterObjects(names, target), grasped);
    ContainsAfter(Preamble(target), Body(names, target), grasped);
  }

  /**
    The problem opens with the preamble, and its `:language` line carries the
    instruction `pick up` and the target name as given, spaces and all.
  */
  lemma LanguageLineUsesRawName(names: seq<string>, target: string)
    ensures StartsWith(BddlContent(names, target), Preamble(target))
    ensures Contains(BddlContent(names, target), Language(target))
  {
    var p := Language(target);
    StartsWithSpliced(Preamble(target), Body(names, target));
    ContainsSpliced("    ", p, "\n");
    ContainsAfter(ProblemHeader, LanguageLine(target), p);
    ContainsBefore(Preamble(target), Body(names, target), p);
  }

  /** The constant regions section appears in every problem, whatever the objects are. */
  lemma RegionsAlwaysIncluded(names: seq<string>, target: string)
    ensures Contains(BddlContent(names, target), RegionsSection)
  {
    ContainsSpliced("    ", RegionsSection, "\n\n");
    ContainsBefore(Indented(RegionsSection), FixturesSection() + Indented(ObjectsSection(names)) + AfterObjects(names, target), RegionsSection);
    ContainsAfter(Preamble(target), Body(names, target), RegionsSection);
  }
}
