/** The replies both bots send in the registration dialogue. */
module BotTexts {
  function Welcome(name: string): string {
    "Welcome " + name + "! Please select your university."
  }

  const PickUniversity := "Select your university:"
  const PickDegree := "Select your degree:"
  const PickGroup := "Select your group:"
  const InvalidUniversity := "Invalid university. Please select again."
  const InvalidDegree := "Invalid degree. Please select again."
  const InvalidGroup := "Invalid group. Please select again."

  function GroupChosen(group: string): string {
    "You selected " + group + ". Registration complete!"
  }
}
