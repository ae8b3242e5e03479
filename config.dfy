/** The bot's settings: the system prompt, the history depth, and the
    check that both credentials are present before the bot starts. The
    values of the environment variables are parameters here. */
module Config {
  import opened Python

  /** The system prompt sent ahead of every conversation. */
  const SystemPrompt := "あなたは親切で知識豊富なAIアシスタントです。\n"
    + "Discordサーバーでユーザーの質問に答えます。\n"
    + "- 簡潔で分かりやすい回答を心がけてください\n"
    + "- 日本語で回答してください\n"
    + "- コードを含む場合はマークダウン形式で整形してください\n"
    + "- 分からないことは正直に伝えてください"

  const TokenMissing := "DISCORD_BOT_TOKEN が設定されていません"
  const KeyMissing := "OPENAI_API_KEY が設定されていません"

  /** `Config.validate`: one error per missing credential, the Discord
      token's first. The errors depend on the emptiness of the two values
      and on nothing else. */
  method Validate(botToken: string, apiKey: string) returns (errors: seq<string>)
    ensures errors == [] <==> botToken != "" && apiKey != ""
    ensures |errors| == (if botToken == "" then 1 else 0) + (if apiKey == "" then 1 else 0)
    ensures forall e :: e in errors ==> e == TokenMissing || e == KeyMissing
    ensures TokenMissing in errors <==> botToken == ""
    ensures KeyMissing in errors <==> apiKey == ""
    ensures botToken == "" ==> errors[0] == TokenMissing
    ensures apiKey == "" ==> errors[|errors| - 1] == KeyMissing
  {
    errors := [];
    if botToken == "" {
      errors := errors + [TokenMissing];
    }
    if apiKey == "" {
      errors := errors + [KeyMissing];
    }
  }

  /** The start of `main`: exit with status 1 when validation reports
      anything; `None` means start-up goes on. */
  method StartupExit(botToken: string, apiKey: string) returns (status: Option<int>)
    ensures status.Some? <==> botToken == "" || apiKey == ""
    ensures status.Some? ==> status.value == 1
  {
    var errors := Validate(botToken, apiKey);
    if |errors| > 0 {
      return Some(1);
    }
    return None;
  }
}
