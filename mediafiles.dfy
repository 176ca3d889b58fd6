/** Input validation and output naming for post-processed media: extension checks
    are case-insensitive `endswith` tests, and outputs are named
    `<basename>_<YYYYMMDD_HHMMSS>_detections.<ext>` inside the output directory. */
module MediaFiles {
  import opened PyValues
  import opened Timestamps

  const VIDEO_EXTENSIONS: seq<string> := [".mp4", ".mov"]
  const IMAGE_EXTENSIONS: seq<string> := [".png", ".jpg"]

  /** `path.lower().endswith(extensions)` */
  predicate HasExtension(path: string, extensions: seq<string>) {
    EndsWithAny(Lower(path), extensions)
  }

  predicate IsVideoPath(path: string) {
    HasExtension(path, VIDEO_EXTENSIONS)
  }

  predicate IsImagePath(path: string) {
    HasExtension(path, IMAGE_EXTENSIONS)
  }

  /** `s.endswith(x)` with a four-character suffix is a test on the last four characters,
      and lower-casing commutes with taking them. */
  lemma EndsWithFour(path: string, ext: string)
    requires |ext| == 4
    ensures EndsWith(Lower(path), ext) <==> |path| >= 4 && Lower(path[|path| - 4..]) == ext
  {
    if |path| >= 4 {
      LowerSuffix(path, |path| - 4);
    }
  }

  /** A video is accepted exactly when its last four characters, lower-cased, are
      `.mp4` or `.mov`, whatever their case in the path. */
  lemma VideoAcceptance(path: string)
    ensures IsVideoPath(path) <==> |path| >= 4 && (Lower(path[|path| - 4..]) == ".mp4" || Lower(path[|path| - 4..]) == ".mov")
  {
    EndsWithFour(path, VIDEO_EXTENSIONS[0]);
    EndsWithFour(path, VIDEO_EXTENSIONS[1]);
    assert IsVideoPath(path) <==> EndsWith(Lower(path), VIDEO_EXTENSIONS[0]) || EndsWith(Lower(path), VIDEO_EXTENSIONS[1]);
  }

  /** An image is accepted exactly when its last four characters, lower-cased, are
      `.png` or `.jpg`. */
  lemma ImageAcceptance(path: string)
    ensures IsImagePath(path) <==> |path| >= 4 && (Lower(path[|path| - 4..]) == ".png" || Lower(path[|path| - 4..]) == ".jpg")
  {
    EndsWithFour(path, IMAGE_EXTENSIONS[0]);
    EndsWithFour(path, IMAGE_EXTENSIONS[1]);
    assert IsImagePath(path) <==> EndsWith(Lower(path), IMAGE_EXTENSIONS[0]) || EndsWith(Lower(path), IMAGE_EXTENSIONS[1]);
  }

  /** The extension test ignores case: a path and its lower-cased form are judged alike. */
  lemma ExtensionCaseInsensitive(path: string, extensions: seq<string>)
    ensures HasExtension(path, extensions) <==> HasExtension(Lower(path), extensions)
  {
    LowerIdempotent(path);
  }

  /** `.jpeg` is not among the image extensions; `.JPG` is accepted. */
  lemma JpegRejected(stem: string)
    ensures !IsImagePath(stem + ".jpeg")
    ensures IsImagePath(stem + ".JPG") && IsVideoPath(stem + ".MOV")
  {
    var p := stem + ".jpeg";
    assert p[|p| - 4..] == "jpeg";
    ImageAcceptance(p);
    var q := stem + ".JPG";
    assert q[|q| - 4..] == ".JPG";
    ImageAcceptance(q);
    var m := stem + ".MOV";
    assert m[|m| - 4..] == ".MOV";
    VideoAcceptance(m);
  }

  /** The index just past the last `/` in `path`, or 0 when there is none. */
  function LastSlashEnd(path: string): (k: nat)
    ensures k <= |path|
    ensures k > 0 ==> path[k - 1] == '/'
    ensures forall i :: k <= i < |path| ==> path[i] != '/'
  {
    if path == [] then 0
    else if path[|path| - 1] == '/' then |path|
    else LastSlashEnd(path[..|path| - 1])
  }

  /** `os.path.basename(path)` with POSIX separators: the longest suffix without a `/`. */
  function Basename(path: string): (b: string)
    ensures '/' !in b
    ensures |b| <= |path| && path[|path| - |b|..] == b
    ensures |b| < |path| ==> path[|path| - |b| - 1] == '/'
  {
    path[LastSlashEnd(path)..]
  }

  /** `os.path.join(directory, name)` for a relative `name`: the directory, then a `/`
      unless it is empty or already ends in one, then the name. */
  function Join(directory: string, name: string): (p: string)
    ensures |name| <= |p| && p[|p| - |name|..] == name
    ensures p == directory + name || p == directory + "/" + name
    ensures p == directory + "/" + name <==> directory != [] && directory[|directory| - 1] != '/'
  {
    if directory == [] || directory[|directory| - 1] == '/' then directory + name else directory + "/" + name
  }

  /** Text without a `/` appended after a path does not move its last `/`. */
  lemma {:induction false} LastSlashEndAppend(x: string, y: string)
    requires '/' !in y
    ensures LastSlashEnd(x + y) == LastSlashEnd(x)
    decreases |y|
  {
    if y != [] {
      var z := y[..|y| - 1];
      assert (x + y)[..|x + y| - 1] == x + z;
      assert y[|y| - 1] in y;
      LastSlashEndAppend(x, z);
    } else {
      assert x + y == x;
    }
  }

  /** Joining a bare file name to a directory keeps it as the basename. */
  lemma BasenameOfJoin(directory: string, name: string)
    requires '/' !in name
    ensures Basename(Join(directory, name)) == name
  {
    var dir := if directory == [] || directory[|directory| - 1] == '/' then directory else directory + "/";
    assert Join(directory, name) == dir + name;
    LastSlashEndAppend(dir, name);
    assert LastSlashEnd(dir) == |dir|;
    assert (dir + name)[|dir|..] == name;
  }

  /** `f'{os.path.basename(path)}_{timestamp}_detections{ext}'` */
  function OutputName(path: string, t: Instant, ext: string): string {
    Basename(path) + "_" + Stamp(t) + "_detections" + ext
  }

  /** The video output, `videos_dir/<name>_<stamp>_detections.mp4`. */
  function VideoOutput(videosDir: string, path: string, t: Instant): string {
    Join(videosDir, OutputName(path, t, ".mp4"))
  }

  /** The image output, `images_dir/<name>_<stamp>_detections.jpg`. */
  function ImageOutput(imagesDir: string, path: string, t: Instant): string {
    Join(imagesDir, OutputName(path, t, ".jpg"))
  }

  lemma SliceOfConcat(x: string, y: string, i: nat, j: nat)
    requires i <= j <= |x|
    ensures (x + y)[i..j] == x[i..j]
  {
  }

  /** An output name gives back the input's basename (its own extension included) and
      the instant of the run. */
  lemma OutputNameParts(path: string, t: Instant, ext: string)
    ensures |OutputName(path, t, ext)| == |Basename(path)| + 27 + |ext|
    ensures OutputName(path, t, ext)[..|Basename(path)|] == Basename(path)
    ensures ParseStamp(OutputName(path, t, ext)[|Basename(path)| + 1..|Basename(path)| + 16]) == Some(t)
    ensures OutputName(path, t, ext)[|OutputName(path, t, ext)| - |ext|..] == ext
  {
    var base, stamp := Basename(path), Stamp(t);
    var b := |base|;
    var front := base + "_" + stamp;
    var named := front + "_detections";
    var n := named + ext;
    assert n == OutputName(path, t, ext);
    SliceOfConcat(named, ext, 0, b);
    SliceOfConcat(front, "_detections", 0, b);
    SliceOfConcat(base + "_", stamp, 0, b);
    assert n[..b] == base;
    SliceOfConcat(named, ext, b + 1, b + 16);
    SliceOfConcat(front, "_detections", b + 1, b + 16);
    assert front[b + 1..b + 16] == stamp;
    StampRoundTrip(t);
  }

  /** The basename and the stamp are followed each by its separator: `_` after the
      basename, `_detections` after the stamp. */
  lemma OutputNameSeparators(path: string, t: Instant, ext: string)
    ensures OutputName(path, t, ext)[|Basename(path)|] == '_'
    ensures OutputName(path, t, ext)[|Basename(path)| + 16..|Basename(path)| + 27] == "_detections"
  {
    var base, stamp := Basename(path), Stamp(t);
    assert OutputName(path, t, ext) == base + "_" + stamp + "_detections" + ext;
    NameSeparators(base, stamp, ext);
  }

  lemma NameSeparators(base: string, stamp: string, ext: string)
    requires |stamp| == 15
    ensures (base + "_" + stamp + "_detections" + ext)[|base|] == '_'
    ensures (base + "_" + stamp + "_detections" + ext)[|base| + 16..|base| + 27] == "_detections"
  {
    var named := base + "_" + stamp + "_detections";
    SliceOfConcat(named, ext, |base| + 16, |base| + 27);
  }

  /** Two runs over inputs with different basenames, or at different instants, never
      write to the same output name. */
  lemma OutputNameInjective(p: string, t: Instant, q: string, u: Instant, ext: string)
    requires OutputName(p, t, ext) == OutputName(q, u, ext)
    ensures Basename(p) == Basename(q) && t == u
  {
    var n := OutputName(p, t, ext);
    OutputNameParts(p, t, ext);
    OutputNameParts(q, u, ext);
    var b := |Basename(p)|;
    assert |Basename(q)| == b;
    assert Basename(p) == n[..b] == Basename(q);
    assert Some(t) == ParseStamp(n[b + 1..b + 16]) == Some(u);
  }

  /** `f'{timestamp}_{channel}_webcam_recording.mp4'`, the webcam recording's name. */
  function RecordingName(t: Instant, channel: int): string {
    Stamp(t) + "_" + IntToString(channel) + "_webcam_recording.mp4"
  }

  /** A recording name starts with the stamp of its instant, followed by the channel. */
  lemma RecordingNameParts(t: Instant, channel: int)
    ensures |RecordingName(t, channel)| == |IntToString(channel)| + 37
    ensures ParseStamp(RecordingName(t, channel)[..15]) == Some(t) && RecordingName(t, channel)[15] == '_'
    ensures RecordingName(t, channel)[16..16 + |IntToString(channel)|] == IntToString(channel)
    ensures EndsWith(RecordingName(t, channel), "_webcam_recording.mp4")
  {
    var stamp, ch := Stamp(t), IntToString(channel);
    var front := stamp + "_" + ch;
    var n := front + "_webcam_recording.mp4";
    assert n == RecordingName(t, channel);
    SliceOfConcat(front, "_webcam_recording.mp4", 0, 15);
    SliceOfConcat(stamp + "_", ch, 0, 15);
    assert n[..15] == stamp;
    SliceOfConcat(front, "_webcam_recording.mp4", 16, 16 + |ch|);
    assert front[16..16 + |ch|] == ch;
    assert n[|n| - 21..] == "_webcam_recording.mp4";
    StampRoundTrip(t);
  }

  /** Recordings started at different instants or on different channels get different names. */
  lemma RecordingNameInjective(t: Instant, c: int, u: Instant, d: int)
    requires RecordingName(t, c) == RecordingName(u, d)
    ensures t == u && c == d
  {
    var n := RecordingName(t, c);
    RecordingNameParts(t, c);
    RecordingNameParts(u, d);
    var w := |IntToString(c)|;
    assert |IntToString(d)| == w;
    assert Some(t) == ParseStamp(n[..15]) == Some(u);
    assert IntToString(c) == n[16..16 + w] == IntToString(d);
    IntToStringInjective(c, d);
  }

  /** A timestamp contains no separator. */
  lemma StampHasNoSlash(t: Instant)
    ensures '/' !in Stamp(t)
  {
    var stamp := Stamp(t);
    forall k | 0 <= k < |stamp|
      ensures stamp[k] != '/'
    {
      if k != 8 {
        assert '0' <= stamp[k] <= '9';
      }
    }
  }

  /** An output name holds no separator when its extension holds none. */
  lemma OutputNameHasNoSlash(path: string, t: Instant, ext: string)
    requires '/' !in ext
    ensures '/' !in OutputName(path, t, ext)
  {
    StampHasNoSlash(t);
    NameHasNoSlash(Basename(path), Stamp(t), ext);
  }

  lemma NameHasNoSlash(base: string, stamp: string, ext: string)
    requires '/' !in base && '/' !in stamp && '/' !in ext
    ensures '/' !in base + "_" + stamp + "_detections" + ext
  {
  }

  /** Every output is a bare file name inside its directory: the path is the directory,
      a separator where one is needed, and the output name, which is its basename. */
  lemma OutputInDirectory(directory: string, path: string, t: Instant, ext: string)
    requires '/' !in ext
    ensures Join(directory, OutputName(path, t, ext)) == directory + OutputName(path, t, ext)
            || Join(directory, OutputName(path, t, ext)) == directory + "/" + OutputName(path, t, ext)
    ensures Basename(Join(directory, OutputName(path, t, ext))) == OutputName(path, t, ext)
  {
    OutputNameHasNoSlash(path, t, ext);
    BasenameOfJoin(directory, OutputName(path, t, ext));
  }
}
