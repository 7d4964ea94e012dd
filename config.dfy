/**
 * Selection of the Hazelcast configuration source (getConfigStream,
 * readFromClusterFile and getConfig of HazelcastClusterManager).
 *
 * The JVM environment the selection looks at is a value: the system
 * properties, the names the class loader can open as resources and the
 * paths a FileInputStream can open. Only WHICH source is chosen is
 * modelled; opening, buffering and parsing the XML are not.
 */
module ClusterConfig {
  import opened Wrappers

  /** System property naming a cluster configuration file. */
  const ClusterFileProperty: string := "vertx.ra.cluster.file"
  /** Bundled configuration looked up after the property. */
  const ConfigFile: string := "cluster.xml"
  /** Bundled default configuration, the last resource tried. */
  const DefaultConfigFile: string := "default-cluster.xml"

  datatype Environment = Environment(
    properties: map<string, string>,  // System.getProperty
    resources: set<string>,           // ClassLoader.getResourceAsStream succeeds
    files: set<string>)               // new FileInputStream succeeds

  /** The stream getConfigStream hands back: where it was opened from. */
  datatype ConfigSource = ClasspathResource(name: string) | FileSystem(path: string)

  /** What join passes to Hazelcast.newHazelcastInstance: a parsed file, or null for the engine's defaults. */
  datatype EngineConfig = EngineDefaults | XmlConfig(source: ConfigSource)

  // ---------------------------------------------------------------------
  // java.lang.String.trim: strips leading and trailing characters <= ' '

  predicate Blank(s: string) {
    forall i :: 0 <= i < |s| ==> s[i] <= ' '
  }

  function TrimStart(s: string): (r: string)
    ensures |r| <= |s| && r == s[|s| - |r|..]
    ensures Blank(s[..|s| - |r|])
    ensures r != [] ==> r[0] > ' '
  {
    if |s| > 0 && s[0] <= ' ' then TrimStart(s[1..]) else s
  }

  function TrimEnd(s: string): (r: string)
    ensures |r| <= |s| && r == s[..|r|]
    ensures Blank(s[|r|..])
    ensures r != [] ==> r[|r| - 1] > ' '
  {
    if |s| > 0 && s[|s| - 1] <= ' ' then TrimEnd(s[..|s| - 1]) else s
  }

  function Trim(s: string): (r: string)
  {
    TrimEnd(TrimStart(s))
  }

  /** `trim().length() == 0` holds exactly of the strings made only of characters <= ' '. */
  lemma TrimEmptyIffBlank(s: string)
    ensures |Trim(s)| == 0 <==> Blank(s)
  {
  }

  // ---------------------------------------------------------------------
  // The code's chain

  /**
   * readFromClusterFile: an unset or blank property selects nothing; a set one
   * is opened as a resource if it is one, else as a file if it is one, else
   * nothing is selected.
   */
  function ReadFromClusterFile(env: Environment): (r: Option<ConfigSource>)
    ensures ClusterFileProperty !in env.properties || Blank(env.properties[ClusterFileProperty]) ==> r.None?
    ensures ClusterFileProperty in env.properties && !Blank(env.properties[ClusterFileProperty]) ==>
      var f := env.properties[ClusterFileProperty];
      (f in env.resources ==> r == Some(ClasspathResource(f))) &&
      (f !in env.resources && f in env.files ==> r == Some(FileSystem(f))) &&
      (f !in env.resources && f !in env.files ==> r.None?)
  {
    if ClusterFileProperty !in env.properties then None
    else
      var clusterFile := env.properties[ClusterFileProperty];
      TrimEmptyIffBlank(clusterFile);
      if |Trim(clusterFile)| == 0 then None
      else if clusterFile in env.resources then Some(ClasspathResource(clusterFile))
      else if clusterFile in env.files then Some(FileSystem(clusterFile))
      else None
  }

  /**
   * getConfigStream: the cluster file, else cluster.xml, else
   * default-cluster.xml, else null. Whatever it selects can be opened, and
   * it selects nothing only when none of the sources can.
   */
  function GetConfigStream(env: Environment): (r: Option<ConfigSource>)
    ensures r.Some? ==> Opens(env, r.value)
    ensures r.None? <==> ReadFromClusterFile(env).None? && ConfigFile !in env.resources &&
                         DefaultConfigFile !in env.resources
    ensures ReadFromClusterFile(env).Some? ==> r == ReadFromClusterFile(env)
    ensures ReadFromClusterFile(env).None? && ConfigFile in env.resources ==> r == Some(ClasspathResource(ConfigFile))
    ensures ReadFromClusterFile(env).None? && ConfigFile !in env.resources && DefaultConfigFile in env.resources ==>
      r == Some(ClasspathResource(DefaultConfigFile))
  {
    var fromProperty := ReadFromClusterFile(env);
    if fromProperty.Some? then fromProperty
    else if ConfigFile in env.resources then Some(ClasspathResource(ConfigFile))
    else if DefaultConfigFile in env.resources then Some(ClasspathResource(DefaultConfigFile))
    else None
  }

  /**
   * getConfig: a configuration built from the selected stream, or null (the
   * engine's defaults) when there is none. Defaults are used exactly when no
   * candidate source opens; otherwise the source is the first that opens.
   */
  function GetConfig(env: Environment): (cfg: EngineConfig)
    ensures cfg.EngineDefaults? <==> forall i :: 0 <= i < |Candidates(env)| ==> !Opens(env, Candidates(env)[i])
    ensures cfg.XmlConfig? ==> Some(cfg.source) == FirstOpening(env, Candidates(env))
  {
    GetConfigStreamIsFirstMatch(env);
    match GetConfigStream(env)
    case None => EngineDefaults
    case Some(src) => XmlConfig(src)
  }

  // ---------------------------------------------------------------------
  // Independent reference: the ordered candidate list, first one that opens wins

  predicate Opens(env: Environment, src: ConfigSource) {
    match src
    case ClasspathResource(name) => name in env.resources
    case FileSystem(path) => path in env.files
  }

  /** The sources tried, in order: the property is a candidate only when it is set and not blank. */
  function Candidates(env: Environment): seq<ConfigSource>
  {
    (if ClusterFileProperty in env.properties && !Blank(env.properties[ClusterFileProperty]) then
       var f := env.properties[ClusterFileProperty];
       [ClasspathResource(f), FileSystem(f)]
     else [])
    + [ClasspathResource(ConfigFile), ClasspathResource(DefaultConfigFile)]
  }

  /** The first candidate that opens, if any. */
  function FirstOpening(env: Environment, cands: seq<ConfigSource>): (r: Option<ConfigSource>)
    ensures r.None? <==> forall i :: 0 <= i < |cands| ==> !Opens(env, cands[i])
    ensures r.Some? ==> exists i :: 0 <= i < |cands| && cands[i] == r.value && Opens(env, r.value) &&
                          forall j :: 0 <= j < i ==> !Opens(env, cands[j])
  {
    if cands == [] then None
    else if Opens(env, cands[0]) then Some(cands[0])
    else
      var r := FirstOpening(env, cands[1..]);
      assert forall i :: 1 <= i < |cands| ==> cands[i] == cands[1..][i - 1];
      if r.Some? then
        var i :| 0 <= i < |cands[1..]| && cands[1..][i] == r.value && Opens(env, r.value) &&
                 forall j :: 0 <= j < i ==> !Opens(env, cands[1..][j]);
        assert cands[i + 1] == r.value;
        r
      else r
  }

  /** Trying a list that starts with `src` tries `src` first. */
  lemma FirstOpeningCons(env: Environment, src: ConfigSource, rest: seq<ConfigSource>)
    ensures FirstOpening(env, [src] + rest) ==
      if Opens(env, src) then Some(src) else FirstOpening(env, rest)
  {
  }

  /** The two bundled resources, tried in order. */
  lemma BundledCandidates(env: Environment)
    ensures FirstOpening(env, [ClasspathResource(ConfigFile), ClasspathResource(DefaultConfigFile)]) ==
      if ConfigFile in env.resources then Some(ClasspathResource(ConfigFile))
      else if DefaultConfigFile in env.resources then Some(ClasspathResource(DefaultConfigFile))
      else None
  {
  }

  /** The property's two candidates, resource first, then file, are tried before the rest. */
  lemma PropertyCandidates(env: Environment, f: string, rest: seq<ConfigSource>)
    ensures FirstOpening(env, [ClasspathResource(f), FileSystem(f)] + rest) ==
      if f in env.resources then Some(ClasspathResource(f))
      else if f in env.files then Some(FileSystem(f))
      else FirstOpening(env, rest)
  {
    assert [ClasspathResource(f), FileSystem(f)] + rest == [ClasspathResource(f)] + ([FileSystem(f)] + rest);
    FirstOpeningCons(env, ClasspathResource(f), [FileSystem(f)] + rest);
    FirstOpeningCons(env, FileSystem(f), rest);
  }

  /** getConfigStream is first-match-wins over Candidates. */
  lemma GetConfigStreamIsFirstMatch(env: Environment)
    ensures GetConfigStream(env) == FirstOpening(env, Candidates(env))
  {
    var tail := [ClasspathResource(ConfigFile), ClasspathResource(DefaultConfigFile)];
    BundledCandidates(env);
    if ClusterFileProperty in env.properties && !Blank(env.properties[ClusterFileProperty]) {
      var f := env.properties[ClusterFileProperty];
      assert Candidates(env) == [ClasspathResource(f), FileSystem(f)] + tail;
      PropertyCandidates(env, f, tail);
    } else {
      assert Candidates(env) == tail;
    }
  }

  /** A blank or missing property never selects a file of its own. */
  lemma BlankPropertyIsSkipped(env: Environment)
    requires ClusterFileProperty !in env.properties || Blank(env.properties[ClusterFileProperty])
    ensures ReadFromClusterFile(env) == None
    ensures GetConfigStream(env) ==
      if ConfigFile in env.resources then Some(ClasspathResource(ConfigFile))
      else if DefaultConfigFile in env.resources then Some(ClasspathResource(DefaultConfigFile))
      else None
  {
  }

  /** A set property is tried as a resource before it is tried as a file, and both beat cluster.xml. */
  lemma PropertyWinsWhenItOpens(env: Environment)
    requires ClusterFileProperty in env.properties && !Blank(env.properties[ClusterFileProperty])
    ensures var f := env.properties[ClusterFileProperty];
      (f in env.resources ==> GetConfig(env) == XmlConfig(ClasspathResource(f))) &&
      (f !in env.resources && f in env.files ==> GetConfig(env) == XmlConfig(FileSystem(f)))
  {
  }

  /** With no property and no cluster.xml, the bundled default is used rather than failing. */
  lemma FallsBackToBundledDefault(env: Environment)
    requires ClusterFileProperty !in env.properties
    requires ConfigFile !in env.resources && DefaultConfigFile in env.resources
    ensures GetConfig(env) == XmlConfig(ClasspathResource(DefaultConfigFile))
  {
  }

}
