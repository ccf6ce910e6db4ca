/** The job's way from the SDK through the facilitator to the validator, and what is signed on it
    (compute_horde_sdk/src/compute_horde_sdk/_internal/sdk.py, compute_horde_sdk/src/compute_horde_core/signature.py,
    facilitator/app/src/project/core/models.py, compute_horde/compute_horde/fv_protocol/facilitator_requests.py).
    Signed field records are compared, not their bytes. */
module SignedPayload {
  import opened Messages

  datatype Json = Null | Text(text: string) | Object(members: map<string, string>) | List(items: seq<string>)

  type Dump = map<string, Json>

  function OrNull(o: Option<string>): Json {
    if o.Some? then Text(o.value) else Null
  }

  function DictOrNull(o: Option<map<string, string>>): Json {
    if o.Some? then Object(o.value) else Null
  }

  datatype Patterns = NoPatterns | OnePattern(pattern: string) | ManyPatterns(patterns: seq<string>)

  datatype Volume =
    | Inline(contents: string, relativePath: Option<string>)
    | ZipUrl(contents: string, relativePath: Option<string>)
    | SingleFile(url: string, path: string)
    | Huggingface(repoId: string, repoType: Option<string>, revision: Option<string>,
                  relativePath: Option<string>, allowPatterns: Patterns, token: Option<string>)
  {
    /** pydantic's `model_dump`: every field, the discriminator included. */
    function ModelDump(): Dump {
      match this
      case Inline(c, p) => map["volume_type" := Text("inline"), "contents" := Text(c), "relative_path" := OrNull(p)]
      case ZipUrl(c, p) => map["volume_type" := Text("zip_url"), "contents" := Text(c), "relative_path" := OrNull(p)]
      case SingleFile(u, p) => map["volume_type" := Text("single_file"), "url" := Text(u), "relative_path" := Text(p)]
      case Huggingface(i, t, v, p, a, k) =>
        map["volume_type" := Text("huggingface_volume"), "repo_id" := Text(i), "repo_type" := OrNull(t),
            "revision" := OrNull(v), "relative_path" := OrNull(p), "token" := OrNull(k),
            "allow_patterns" := match a
              case NoPatterns => Null
              case OnePattern(s) => Text(s)
              case ManyPatterns(ss) => List(ss)]
    }
  }

  datatype Upload =
    | FilePost(url: string, formFields: Option<map<string, string>>, path: string,
               signedHeaders: Option<map<string, string>>)
    | FilePut(url: string, path: string, signedHeaders: Option<map<string, string>>)
    | ZipPost(url: string, formFields: Option<map<string, string>>)
    | ZipPut(url: string)
  {
    function ModelDump(): Dump {
      match this
      case FilePost(u, f, p, h) =>
        map["output_upload_type" := Text("single_file_post"), "url" := Text(u), "form_fields" := DictOrNull(f),
            "relative_path" := Text(p), "signed_headers" := DictOrNull(h)]
      case FilePut(u, p, h) =>
        map["output_upload_type" := Text("single_file_put"), "url" := Text(u),
            "relative_path" := Text(p), "signed_headers" := DictOrNull(h)]
      case ZipPost(u, f) =>
        map["output_upload_type" := Text("zip_and_http_post"), "url" := Text(u), "form_fields" := DictOrNull(f)]
      case ZipPut(u) => map["output_upload_type" := Text("zip_and_http_put"), "url" := Text(u)]
    }
  }

  // ----- reading a dump back

  function RequiredText(d: Dump, key: string): Option<string> {
    if key in d && d[key].Text? then Some(d[key].text) else None
  }

  /** A missing or null key is the default; anything else but text is a validation error. */
  function OptionalText(d: Dump, key: string): Option<Option<string>> {
    if key !in d || d[key].Null? then Some(None) else if d[key].Text? then Some(Some(d[key].text)) else None
  }

  function OptionalDict(d: Dump, key: string): Option<Option<map<string, string>>> {
    if key !in d || d[key].Null? then Some(None) else if d[key].Object? then Some(Some(d[key].members)) else None
  }

  function OptionalPatterns(d: Dump, key: string): Option<Patterns> {
    if key !in d || d[key].Null? then Some(NoPatterns)
    else if d[key].Text? then Some(OnePattern(d[key].text))
    else if d[key].List? then Some(ManyPatterns(d[key].items))
    else None
  }

  /** The discriminated union of volumes a multi-volume may hold; None is a validation error. */
  function ParseVolume(d: Dump): Option<Volume> {
    var kind, path := RequiredText(d, "volume_type"), OptionalText(d, "relative_path");
    if kind.None? || path.None? then None
    else if kind.value == "inline" then
      var c := RequiredText(d, "contents");
      if c.Some? then Some(Inline(c.value, path.value)) else None
    else if kind.value == "zip_url" then
      var c := RequiredText(d, "contents");
      if c.Some? then Some(ZipUrl(c.value, path.value)) else None
    else if kind.value == "single_file" then
      var u := RequiredText(d, "url");
      if u.Some? && path.value.Some? then Some(SingleFile(u.value, path.value.value)) else None
    else if kind.value == "huggingface_volume" then
      var i, t, v := RequiredText(d, "repo_id"), OptionalText(d, "repo_type"), OptionalText(d, "revision");
      var a, k := OptionalPatterns(d, "allow_patterns"), OptionalText(d, "token");
      if i.Some? && t.Some? && v.Some? && a.Some? && k.Some?
      then Some(Huggingface(i.value, t.value, v.value, path.value, a.value, k.value)) else None
    else None
  }

  /** The discriminated union of single-file uploads, which is all a multi-upload may hold. */
  function ParseUpload(d: Dump): Option<Upload> {
    var kind, u, p := RequiredText(d, "output_upload_type"), RequiredText(d, "url"), RequiredText(d, "relative_path");
    var f, h := OptionalDict(d, "form_fields"), OptionalDict(d, "signed_headers");
    if kind.None? || u.None? || p.None? || f.None? || h.None? then None
    else if kind.value == "single_file_post" then Some(FilePost(u.value, f.value, p.value, h.value))
    else if kind.value == "single_file_put" then Some(FilePut(u.value, p.value, h.value))
    else None
  }

  lemma VolumeRoundTrip(v: Volume)
    ensures ParseVolume(v.ModelDump()) == Some(v)
  {
  }

  lemma UploadRoundTrip(u: Upload)
    ensures ParseUpload(u.ModelDump()) == if u.FilePost? || u.FilePut? then Some(u) else None
  {
  }

  function ParseVolumes(ds: seq<Dump>): Option<seq<Volume>> {
    if ds == [] then Some([])
    else
      var first, rest := ParseVolume(ds[0]), ParseVolumes(ds[1..]);
      if first.Some? && rest.Some? then Some([first.value] + rest.value) else None
  }

  function ParseUploads(ds: seq<Dump>): Option<seq<Upload>> {
    if ds == [] then Some([])
    else
      var first, rest := ParseUpload(ds[0]), ParseUploads(ds[1..]);
      if first.Some? && rest.Some? then Some([first.value] + rest.value) else None
  }

  lemma {:induction false} VolumesRoundTrip(vs: seq<Volume>)
    ensures ParseVolumes(VolumeDumps(vs)) == Some(vs)
  {
    if vs != [] {
      VolumeRoundTrip(vs[0]);
      VolumesRoundTrip(vs[1..]);
      assert VolumeDumps(vs)[1..] == VolumeDumps(vs[1..]);
      assert VolumeDumps(vs)[0] == vs[0].ModelDump();
      assert [vs[0]] + vs[1..] == vs;
    }
  }

  lemma {:induction false} UploadsRoundTrip(us: seq<Upload>)
    requires forall u :: u in us ==> u.FilePost? || u.FilePut?
    ensures ParseUploads(UploadDumps(us)) == Some(us)
  {
    if us != [] {
      assert us[0] in us;
      UploadRoundTrip(us[0]);
      UploadsRoundTrip(us[1..]);
      assert UploadDumps(us)[1..] == UploadDumps(us[1..]);
      assert UploadDumps(us)[0] == us[0].ModelDump();
      assert [us[0]] + us[1..] == us;
    }
  }

  // ----- telling dumps apart

  lemma VolumeDumpInjective(a: Volume, b: Volume)
    requires a.ModelDump() == b.ModelDump()
    ensures a == b
  {
    VolumeRoundTrip(a);
    VolumeRoundTrip(b);
  }

  lemma UploadDumpInjective(a: Upload, b: Upload)
    requires a.ModelDump() == b.ModelDump()
    ensures a == b
  {
    var m := a.ModelDump();
    assert b.ModelDump()["output_upload_type"] == m["output_upload_type"];
    assert b.ModelDump()["url"] == m["url"];
    if a.FilePost? || a.FilePut? {
      assert m["relative_path"] == b.ModelDump()["relative_path"];
      assert m["signed_headers"] == b.ModelDump()["signed_headers"];
    }
    if a.FilePost? || a.ZipPost? {
      assert m["form_fields"] == b.ModelDump()["form_fields"];
    }
  }

  function VolumeDumps(vs: seq<Volume>): seq<Dump> {
    seq(|vs|, i requires 0 <= i < |vs| => vs[i].ModelDump())
  }

  function UploadDumps(us: seq<Upload>): seq<Dump> {
    seq(|us|, i requires 0 <= i < |us| => us[i].ModelDump())
  }

  lemma VolumeDumpsInjective(a: seq<Volume>, b: seq<Volume>)
    requires VolumeDumps(a) == VolumeDumps(b)
    ensures a == b
  {
    assert |a| == |VolumeDumps(a)| == |VolumeDumps(b)| == |b|;
    forall i | 0 <= i < |a|
      ensures a[i] == b[i]
    {
      assert VolumeDumps(a)[i] == VolumeDumps(b)[i];
      VolumeDumpInjective(a[i], b[i]);
    }
  }

  lemma UploadDumpsInjective(a: seq<Upload>, b: seq<Upload>)
    requires UploadDumps(a) == UploadDumps(b)
    ensures a == b
  {
    assert |a| == |UploadDumps(a)| == |UploadDumps(b)| == |b|;
    forall i | 0 <= i < |a|
      ensures a[i] == b[i]
    {
      assert UploadDumps(a)[i] == UploadDumps(b)[i];
      UploadDumpInjective(a[i], b[i]);
    }
  }

  datatype StreamingDetails = StreamingDetails(publicKey: string, executorIp: Option<string>)

  datatype Limits = Limits(download: int, execution: int, upload: int, streamingStart: int)

  /** What is signed. */
  datatype SignedFields = SignedFields(
    executorClass: string, dockerImage: string, args: seq<string>, env: map<string, string>, useGpu: bool,
    artifactsDir: string, onTrustedMiner: bool, limits: Limits,
    streamingDetails: Option<StreamingDetails>, volumes: seq<Dump>, uploads: seq<Dump>)

  // ----- SDK

  /** `certificate` is what `generate_certificate` yields if the job streams. */
  datatype JobSpec = JobSpec(
    executorClass: string, dockerImage: string, jobNamespace: string, args: seq<string>, env: map<string, string>,
    artifactsDir: Option<string>, limits: Limits, streaming: bool, certificate: string,
    inputVolumes: Option<seq<Volume>>, outputVolumes: Option<seq<Upload>>)

  /** The JSON body; an absent key is None. */
  datatype RequestData = RequestData(
    targetValidator: string, executorClass: string, dockerImage: string, jobNamespace: string,
    args: seq<string>, env: map<string, string>, useGpu: bool, artifactsDir: Option<string>, onTrustedMiner: bool,
    limits: Limits, streamingKey: Option<string>, volumes: Option<seq<Dump>>, uploads: Option<seq<Dump>>)

  function CreateJobData(spec: JobSpec, onTrustedMiner: bool, target: string): RequestData {
    RequestData(target, spec.executorClass, spec.dockerImage, spec.jobNamespace, spec.args, spec.env, true,
                spec.artifactsDir, onTrustedMiner, spec.limits,
                if spec.streaming then Some(spec.certificate) else None,
                if spec.inputVolumes.Some? then Some(VolumeDumps(spec.inputVolumes.value)) else None,
                if spec.outputVolumes.Some? then Some(UploadDumps(spec.outputVolumes.value)) else None)
  }

  /** `SignedFields.from_facilitator_sdk_json`. */
  function FromFacilitatorSdkJson(data: RequestData): SignedFields {
    SignedFields(data.executorClass, data.dockerImage, data.args, data.env, data.useGpu,
                 if data.artifactsDir.Some? then data.artifactsDir.value else "", data.onTrustedMiner, data.limits,
                 if data.streamingKey.Some? then Some(StreamingDetails(data.streamingKey.value, None)) else None,
                 if data.volumes.Some? then data.volumes.value else [],
                 if data.uploads.Some? then data.uploads.value else [])
  }

  // ----- facilitator

  /** The row the facilitator stores: blank where the request had nothing. */
  datatype StoredJob = StoredJob(
    uuid: string, executorClass: string, dockerImage: string, jobNamespace: string,
    args: seq<string>, env: map<string, string>, useGpu: bool, volumes: seq<Volume>, uploads: seq<Upload>,
    artifactsDir: string, onTrustedMiner: bool, limits: Limits, streamingClientCert: string)

  /** None is a rejected request. */
  function Store(data: RequestData, uuid: string): Option<StoredJob> {
    var volumes := ParseVolumes(if data.volumes.Some? then data.volumes.value else []);
    var uploads := ParseUploads(if data.uploads.Some? then data.uploads.value else []);
    if volumes.None? || uploads.None? then None
    else Some(StoredJob(
      uuid, data.executorClass, data.dockerImage, data.jobNamespace, data.args, data.env, data.useGpu,
      volumes.value, uploads.value, if data.artifactsDir.Some? then data.artifactsDir.value else "",
      data.onTrustedMiner, data.limits, if data.streamingKey.Some? then data.streamingKey.value else ""))
  }

  datatype AnyVolume = NoVolume | OneVolume(volume: Volume) | MultiVolume(volumes: seq<Volume>)
  datatype AnyUpload =
    | NoUpload
    | OneUpload(upload: Upload)
    | MultiUpload(uploads: seq<Upload>, systemOutput: Option<Upload>)

  datatype V2JobRequest = V2JobRequest(
    uuid: string, jobNamespace: Option<string>, executorClass: string, dockerImage: string,
    args: seq<string>, env: map<string, string>, useGpu: bool, volume: AnyVolume, outputUpload: AnyUpload,
    artifactsDir: Option<string>, onTrustedMiner: bool, limits: Limits, streamingDetails: Option<StreamingDetails>)

  /** `Job.as_job_request`. */
  function AsJobRequest(job: StoredJob): V2JobRequest {
    V2JobRequest(job.uuid, Some(job.jobNamespace), job.executorClass, job.dockerImage, job.args, job.env, job.useGpu,
                 if job.volumes == [] then NoVolume else MultiVolume(job.volumes),
                 if job.uploads == [] then NoUpload else MultiUpload(job.uploads, None),
                 if job.artifactsDir == "" then None else Some(job.artifactsDir),
                 job.onTrustedMiner, job.limits,
                 if job.streamingClientCert == "" then None else Some(StreamingDetails(job.streamingClientCert, None)))
  }

  // ----- validator

  function GetSignedFields(r: V2JobRequest): SignedFields {
    SignedFields(r.executorClass, r.dockerImage, r.args, r.env, r.useGpu,
                 if r.artifactsDir.Some? then r.artifactsDir.value else "", r.onTrustedMiner, r.limits, r.streamingDetails,
                 match r.volume
                 case NoVolume => []
                 case OneVolume(v) => VolumeDumps([v])
                 case MultiVolume(vs) => VolumeDumps(vs),
                 match r.outputUpload
                 case NoUpload => []
                 case OneUpload(u) => UploadDumps([u])
                 case MultiUpload(us, _) => UploadDumps(us))
  }

  function VolumesOf(v: AnyVolume): seq<Volume> {
    match v case NoVolume => [] case OneVolume(x) => [x] case MultiVolume(xs) => xs
  }

  function UploadsOf(u: AnyUpload): seq<Upload> {
    match u case NoUpload => [] case OneUpload(x) => [x] case MultiUpload(xs, _) => xs
  }

  /** What the SDK described is what the validator sees: absent lists being empty ones, an empty artifacts directory
      or certificate none at all. */
  predicate Arrives(r: V2JobRequest, spec: JobSpec, onTrustedMiner: bool, uuid: string) {
    && r.uuid == uuid && r.jobNamespace == Some(spec.jobNamespace)
    && r.executorClass == spec.executorClass && r.dockerImage == spec.dockerImage
    && r.args == spec.args && r.env == spec.env && r.useGpu && r.limits == spec.limits
    && r.onTrustedMiner == onTrustedMiner
    && r.artifactsDir == (if spec.artifactsDir == Some("") then None else spec.artifactsDir)
    && r.streamingDetails ==
         (if spec.streaming && spec.certificate != "" then Some(StreamingDetails(spec.certificate, None)) else None)
    && VolumesOf(r.volume) == (if spec.inputVolumes.Some? then spec.inputVolumes.value else [])
    && UploadsOf(r.outputUpload) == (if spec.outputVolumes.Some? then spec.outputVolumes.value else [])
  }

  /** An SDK job uploads single files only (`to_compute_horde_output_upload`). */
  predicate SdkUploads(spec: JobSpec) {
    spec.outputVolumes.Some? ==> forall u :: u in spec.outputVolumes.value ==> u.FilePost? || u.FilePut?
  }

  /** Every SDK job is stored and reaches the validator as it was described. */
  lemma JobArrives(spec: JobSpec, onTrustedMiner: bool, target: string, uuid: string)
    requires SdkUploads(spec)
    ensures var stored := Store(CreateJobData(spec, onTrustedMiner, target), uuid);
      stored.Some? && Arrives(AsJobRequest(stored.value), spec, onTrustedMiner, uuid)
  {
    if spec.inputVolumes.Some? { VolumesRoundTrip(spec.inputVolumes.value); }
    if spec.outputVolumes.Some? { UploadsRoundTrip(spec.outputVolumes.value); }
  }

  lemma SignedDumps(r: V2JobRequest)
    ensures GetSignedFields(r).volumes == VolumeDumps(VolumesOf(r.volume))
    ensures GetSignedFields(r).uploads == UploadDumps(UploadsOf(r.outputUpload))
  {
    assert VolumeDumps([]) == [] && UploadDumps([]) == [];
  }

  /** The job's signature survives both hops - SDK body to stored row to validator request - exactly unless a
      streaming job carries an empty certificate, which the facilitator mistakes for not streaming. */
  lemma SignatureSurvives(spec: JobSpec, onTrustedMiner: bool, target: string, uuid: string)
    requires SdkUploads(spec)
    ensures
      var data := CreateJobData(spec, onTrustedMiner, target);
      && Store(data, uuid).Some?
      && (GetSignedFields(AsJobRequest(Store(data, uuid).value)) == FromFacilitatorSdkJson(data)
          <==> !(spec.streaming && spec.certificate == ""))
  {
    JobArrives(spec, onTrustedMiner, target, uuid);
    var data := CreateJobData(spec, onTrustedMiner, target);
    var request := AsJobRequest(Store(data, uuid).value);
    SignedDumps(request);
    var signed, received := FromFacilitatorSdkJson(data), GetSignedFields(request);
    assert VolumeDumps([]) == [] && UploadDumps([]) == [];
    assert signed.volumes == received.volumes && signed.uploads == received.uploads;
  }

  // ----- what a signature pins down

  /** The same job in every covered respect: one volume or upload is a list of one, none is an empty list,
      no artifacts directory is the empty one; who carries stdout and stderr away is not covered. */
  predicate SameJob(a: V2JobRequest, b: V2JobRequest) {
    && a.executorClass == b.executorClass && a.dockerImage == b.dockerImage && a.args == b.args && a.env == b.env
    && a.useGpu == b.useGpu && a.onTrustedMiner == b.onTrustedMiner && a.limits == b.limits
    && a.streamingDetails == b.streamingDetails
    && VolumesOf(a.volume) == VolumesOf(b.volume) && UploadsOf(a.outputUpload) == UploadsOf(b.outputUpload)
    && (a.artifactsDir == b.artifactsDir || {a.artifactsDir, b.artifactsDir} == {None, Some("")})
  }

  /** Two requests have equal signed fields exactly when they are the same job. */
  lemma SignaturePinsJob(a: V2JobRequest, b: V2JobRequest)
    ensures GetSignedFields(a) == GetSignedFields(b) <==> SameJob(a, b)
  {
    var fa, fb := GetSignedFields(a), GetSignedFields(b);
    assert fa.volumes == VolumeDumps(VolumesOf(a.volume)) && fb.volumes == VolumeDumps(VolumesOf(b.volume));
    assert fa.uploads == UploadDumps(UploadsOf(a.outputUpload)) && fb.uploads == UploadDumps(UploadsOf(b.outputUpload));
    if fa == fb {
      VolumeDumpsInjective(VolumesOf(a.volume), VolumesOf(b.volume));
      UploadDumpsInjective(UploadsOf(a.outputUpload), UploadsOf(b.outputUpload));
      if a.artifactsDir != b.artifactsDir {
        assert a.artifactsDir.None? || b.artifactsDir.None?;
      }
    }
    if SameJob(a, b) && a.artifactsDir != b.artifactsDir {
      assert a.artifactsDir in {None, Some("")} && b.artifactsDir in {None, Some("")};
    }
  }
}
