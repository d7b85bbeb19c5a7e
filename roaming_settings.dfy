/** The application's roaming settings container, `ApplicationData.Current.RoamingSettings.Values`:
  * a dictionary from key to a stored value that survives restarts. Moonlight
  * keeps its client id and its last paired computer there. */
module RoamingSettings {
  import opened Common

  /** The two kinds of value the front-ends store: a byte array and a string. */
  datatype SettingValue = Bytes(bytes: seq<byte>) | Text(text: string)

  class SettingsStore {
    var values: map<string, SettingValue>

    constructor ()
      ensures values == map[]
    {
      values := map[];
    }
  }
}
