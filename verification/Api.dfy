/** The Profiler resource as values: what its fields say, without where they are stored. */
module Api {
  import opened Prelude

  type int32 = n: int | -0x8000_0000 <= n < 0x8000_0000

  datatype SecretRef = SecretRef(name: string, namespace: string, usernameKey: string, passwordKey: string)

  datatype BasicAuth = BasicAuth(username: string, password: string, secretRef: Option<SecretRef>)

  datatype Auth = Auth(authType: string, basicAuth: Option<BasicAuth>)

  const AUTH_TYPE_BASIC: string := "Basic"

  datatype ScrapTarget = ScrapTarget(scrapeURL: string, auth: Option<Auth>)

  datatype ProfilerSpec = ProfilerSpec(
    cpuThreshold: Option<int32>,
    memoryThreshold: Option<int32>,
    monitoringPeriod: int32,
    s3Bucket: string,
    s3Region: string,
    s3PathPrefix: string,
    awsCredentialsSecret: string,
    awsAccessKeyId: string,
    awsSecretAccessKey: string,
    scrapTarget: Option<ScrapTarget>)

  datatype ProfileRecord = ProfileRecord(timestamp: int, recordType: string, s3URL: string, reason: string)

  /** A nil slice and an empty one are told apart. */
  datatype ProfilerStatus = ProfilerStatus(profiles: Option<seq<ProfileRecord>>)

  datatype Profiler = Profiler(
    typeMeta: string, name: string, objectMeta: string, spec: ProfilerSpec, status: ProfilerStatus)

  datatype ProfilerList = ProfilerList(typeMeta: string, listMeta: string, items: Option<seq<Profiler>>)
}
